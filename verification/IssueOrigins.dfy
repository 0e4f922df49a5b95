// The issue origin vocabulary of `src/issueOrigins.ts`: printing a reference, parsing it, and its role.
module IssueOrigins {
  import opened Options
  import opened Text

  datatype Role = Work | Evidence | Deliberation | Unrecognised

  datatype Family =
    | Root | Part | Describe | DescribeCheck | LocalValidationFix | Assess | Retro | ValidationPlan | Validate
    | ValidateFailure | LocalValidation | RemoteValidation | Plan | Appraisal | Investigate | CriteriaAlignment
    | PredictionJudge | Sequence | Split | Summary | Shortfall | ReviewStranded

  /** What an id may be, for the families that carry one. */
  datatype Pattern = NoColon | Digits | Word | Anything

  function Suffix(f: Family): string {
    match f
    case Root => ""
    case Part => "part"
    case Describe => "describe"
    case DescribeCheck => "describe-check"
    case LocalValidationFix => "validate-local-fix"
    case Assess => "assess"
    case Retro => "retro"
    case ValidationPlan => "validate-plan"
    case Validate => "validate"
    case ValidateFailure => "validate-failure"
    case LocalValidation => "validate-local"
    case RemoteValidation => "validate-remote"
    case Plan => "plan"
    case Appraisal => "appraisal"
    case Investigate => "investigate"
    case CriteriaAlignment => "criteria-alignment"
    case PredictionJudge => "prediction-judge"
    case Sequence => "sequence"
    case Split => "split"
    case Summary => "summary"
    case Shortfall => "shortfall"
    case ReviewStranded => "review-stranded"
  }

  function IdPattern(f: Family): Option<Pattern> {
    match f
    case Part => Some(NoColon)
    case Describe => Some(Digits)
    case DescribeCheck => Some(Digits)
    case LocalValidationFix => Some(Word)
    case Validate => Some(Anything)
    case ValidateFailure => Some(Anything)
    case LocalValidation => Some(Word)
    case RemoteValidation => Some(Word)
    case Split => Some(Digits)
    case _ => None
  }

  function RoleOf(f: Family): Role {
    match f
    case Root => Work
    case Part => Work
    case Describe => Evidence
    case DescribeCheck => Evidence
    case LocalValidationFix => Work
    case Assess => Evidence
    case Retro => Evidence
    case ValidationPlan => Evidence
    case Validate => Evidence
    case ValidateFailure => Evidence
    case LocalValidation => Evidence
    case RemoteValidation => Evidence
    case Plan => Deliberation
    case Appraisal => Deliberation
    case Investigate => Deliberation
    case CriteriaAlignment => Deliberation
    case PredictionJudge => Deliberation
    case Sequence => Deliberation
    case Split => Deliberation
    case Summary => Unrecognised
    case Shortfall => Unrecognised
    case ReviewStranded => Unrecognised
  }

  /** The families with a suffix, in the order they are tried. */
  const SUFFIXED: seq<Family> :=
    [Part, Describe, DescribeCheck, LocalValidationFix, Assess, Retro, ValidationPlan, Validate, ValidateFailure,
     LocalValidation, RemoteValidation, Plan, Appraisal, Investigate, CriteriaAlignment, PredictionJudge, Sequence,
     Split, Summary, Shortfall, ReviewStranded]

  /** What `.` matches. */
  predicate OnLine(c: char) {
    c != '\n' && c != '\r' && c != '\U{2028}' && c != '\U{2029}'
  }

  predicate OneLiner(s: string) {
    forall k :: 0 <= k < |s| ==> OnLine(s[k])
  }

  predicate WordChar(c: char) {
    'A' <= c <= 'Z' || 'a' <= c <= 'z' || '0' <= c <= '9' || c == '-'
  }

  predicate Fits(p: Pattern, id: string) {
    id != "" && match p
                case NoColon => ':' !in id
                case Digits => AllDigits(id)
                case Word => forall k :: 0 <= k < |id| ==> WordChar(id[k])
                case Anything => OneLiner(id)
  }

  datatype Origin = Origin(number: nat, family: Family, id: Option<string>)

  /** An origin whose id is one its family can carry. */
  predicate Valid(o: Origin) {
    && (o.id.Some? <==> IdPattern(o.family).Some?)
    && (o.id.Some? ==> Fits(IdPattern(o.family).value, o.id.value) && OneLiner(o.id.value))
  }

  /** An ASCII letter or digit or a hyphen, by its code. */
  predicate LetterOrDigit(c: char) {
    var code := c as int;
    48 <= code <= 57 || 65 <= code <= 90 || 97 <= code <= 122 || code == 45
  }

  predicate BreaksLine(c: char) {
    c as int in {10, 13, 0x2028, 0x2029}
  }

  /** Which ids the families carry: a number, a word, anything on one line, that without colons, or none. */
  lemma IdsSay(o: Origin)
    ensures Valid(o) <==>
            if o.family in {Describe, DescribeCheck, Split} then
              o.id.Some? && o.id.value != "" && forall k :: 0 <= k < |o.id.value| ==> 48 <= o.id.value[k] as int <= 57
            else if o.family in {LocalValidation, LocalValidationFix, RemoteValidation} then
              o.id.Some? && o.id.value != "" && forall k :: 0 <= k < |o.id.value| ==> LetterOrDigit(o.id.value[k])
            else if o.family in {Part, Validate, ValidateFailure} then
              && o.id.Some? && o.id.value != "" && (forall k :: 0 <= k < |o.id.value| ==> !BreaksLine(o.id.value[k]))
              && (o.family == Part ==> ':' !in o.id.value)
            else o.id.None?
  {
    CharsSay();
    hide LetterOrDigit;
    hide BreaksLine;
    hide WordChar;
    hide IsDigit;
    hide OnLine;
  }

  lemma CharsSay()
    ensures forall c :: WordChar(c) == LetterOrDigit(c) && OnLine(c) == !BreaksLine(c)
    ensures forall c :: IsDigit(c) <==> 48 <= c as int <= 57
    ensures forall c :: LetterOrDigit(c) ==> OnLine(c)
    ensures forall c :: IsDigit(c) ==> OnLine(c)
  {
  }

  /** Which work a reference is for. */
  lemma RolesSay(f: Family)
    ensures RoleOf(f) == Work <==> f in {Root, Part, LocalValidationFix}
    ensures RoleOf(f) == Evidence <==> f in {Describe, DescribeCheck, Assess, Retro, ValidationPlan, Validate,
                                             ValidateFailure, LocalValidation, RemoteValidation}
    ensures RoleOf(f) == Unrecognised <==> f in {Summary, Shortfall, ReviewStranded}
  {
  }

  function HeadRef(number: nat): string {
    "issue:" + Decimal(number)
  }

  function SuffixText(f: Family, id: Option<string>): string {
    if id.None? then Suffix(f) else Suffix(f) + (":" + id.value)
  }

  function Ref(o: Origin): string {
    if Suffix(o.family) == "" then HeadRef(o.number) else HeadRef(o.number) + (":" + SuffixText(o.family, o.id))
  }

  // Parsing

  /** The largest number up to which the source holds every integer exactly. */
  const MAX_SAFE: nat := 0x1F_FFFF_FFFF_FFFF

  /** The digits of the number, and the suffix if there is one. */
  function Head(ref: string): (r: Option<(string, Option<string>)>)
    ensures r.Some? ==> AllDigits(r.value.0)
  {
    if !("issue:" <= ref) then None
    else
      var rest := ref[6..];
      var n := DigitRun(rest);
      if n == 0 then None
      else if n == |rest| then Some((rest, None))
      else if rest[n] != ':' || n + 1 == |rest| || !OneLiner(rest[n + 1..]) then None
      else Some((rest[..n], Some(rest[n + 1..])))
  }

  /** The id a suffix carries under a family, if it is one of the family's. */
  function IdIn(f: Family, suffix: string): Option<Option<string>> {
    match IdPattern(f)
    case None => if suffix == Suffix(f) then Some(None) else None
    case Some(p) =>
      var head := Suffix(f) + ":";
      if head <= suffix && Fits(p, suffix[|head|..]) then Some(Some(suffix[|head|..])) else None
  }

  function FamilyIn(families: seq<Family>, suffix: string): Option<(Family, Option<string>)> {
    if families == [] then None
    else
      var id := IdIn(families[0], suffix);
      if id.Some? then Some((families[0], id.value)) else FamilyIn(families[1..], suffix)
  }

  function Parse(ref: string): Option<Origin> {
    var (digits, suffix) :- Head(ref);
    if suffix.None? then Some(Origin(Number(digits), Root, None))
    else
      var (family, id) :- FamilyIn(SUFFIXED, suffix.value);
      Some(Origin(Number(digits), family, id))
  }

  /** A goal's own reference, with nothing under it. */
  predicate IsGoal(ref: string) {
    Parse(ref).Some? && Parse(ref).value.family.Root?
  }

  // The role, judged on the suffix alone

  predicate Under(f: Family, suffix: string) {
    if IdPattern(f).None? then suffix == Suffix(f) else Suffix(f) + ":" <= suffix
  }

  function RoleIn(families: seq<Family>, suffix: string): Role {
    if families == [] then Unrecognised
    else if Under(families[0], suffix) then RoleOf(families[0])
    else RoleIn(families[1..], suffix)
  }

  function RoleFor(number: nat, ref: string): Option<Role> {
    var root := HeadRef(number);
    if ref == root then Some(Work)
    else if root + ":" <= ref then Some(RoleIn(SUFFIXED, ref[|root| + 1..]))
    else None
  }

  // The suffixes are told apart by what comes before their first colon

  function Leading(s: string): (n: nat)
    ensures n <= |s| && ':' !in s[..(n)]
    ensures n < |s| ==> s[n] == ':'
  {
    if s == "" || s[0] == ':' then 0
    else
      var n := Leading(s[1..]);
      assert s[..n + 1] == [s[0]] + s[1..][..n];
      n + 1
  }

  lemma {:induction false} LeadingOf(word: string, rest: string)
    requires ':' !in word && (rest == "" || rest[0] == ':')
    ensures Leading(word + rest) == |word|
  {
    if word == "" {
      assert word + rest == rest;
    } else {
      assert (word + rest)[1..] == word[1..] + rest;
      LeadingOf(word[1..], rest);
    }
  }

  function FamilyNamed(word: string): Option<Family> {
    if |word| < 9 then ShortNamed(word) else LongNamed(word)
  }

  function ShortNamed(word: string): Option<Family> {
    if word == "" then Some(Root)
    else if word == "part" then Some(Part)
    else if word == "plan" then Some(Plan)
    else if word == "retro" then Some(Retro)
    else if word == "split" then Some(Split)
    else if word == "assess" then Some(Assess)
    else if word == "summary" then Some(Summary)
    else if word == "describe" then Some(Describe)
    else if word == "validate" then Some(Validate)
    else if word == "sequence" then Some(Sequence)
    else None
  }

  function LongNamed(word: string): Option<Family> {
    if word == "appraisal" then Some(Appraisal)
    else if word == "shortfall" then Some(Shortfall)
    else if word == "investigate" then Some(Investigate)
    else if word == "validate-plan" then Some(ValidationPlan)
    else if word == "describe-check" then Some(DescribeCheck)
    else if word == "validate-local" then Some(LocalValidation)
    else if word == "validate-remote" then Some(RemoteValidation)
    else if word == "review-stranded" then Some(ReviewStranded)
    else if word == "prediction-judge" then Some(PredictionJudge)
    else if word == "validate-failure" then Some(ValidateFailure)
    else if word == "validate-local-fix" then Some(LocalValidationFix)
    else if word == "criteria-alignment" then Some(CriteriaAlignment)
    else None
  }

  lemma Named(f: Family)
    ensures FamilyNamed(Suffix(f)) == Some(f)
  {
    var w := Suffix(f);
    match f {
      case Root => case Part => case Plan => assert w[1] == 'l';
      case Retro => case Split => assert w[0] == 's';
      case Assess => case Summary =>
      case Describe => case Validate => assert w[0] == 'v';
      case Sequence => assert w[0] == 's';
      case Appraisal => case Shortfall => assert w[0] == 's';
      case Investigate => case ValidationPlan =>
      case DescribeCheck => case LocalValidation => assert w[0] == 'v';
      case RemoteValidation => case ReviewStranded => assert w[0] == 'r';
      case PredictionJudge => case ValidateFailure => assert w[0] == 'v';
      case LocalValidationFix => case CriteriaAlignment => assert w[0] == 'c';
    }
  }

  predicate IsCheck(f: Family) {
    f.DescribeCheck? || f.LocalValidationFix? || f.ValidationPlan? || f.Validate? || f.ValidateFailure?
    || f.LocalValidation? || f.RemoteValidation?
  }

  lemma CheckLetters(f: Family)
    requires IsCheck(f)
    ensures forall k :: 0 <= k < |Suffix(f)| ==> 'a' <= Suffix(f)[k] <= 'z' || Suffix(f)[k] == '-'
    ensures Suffix(f) != ""
  {
  }

  lemma OtherLetters(f: Family)
    requires !IsCheck(f)
    ensures forall k :: 0 <= k < |Suffix(f)| ==> 'a' <= Suffix(f)[k] <= 'z' || Suffix(f)[k] == '-'
    ensures f != Root ==> Suffix(f) != ""
  {
    match f
    case _ =>
  }

  lemma SuffixLetters(f: Family)
    ensures forall k :: 0 <= k < |Suffix(f)| ==> 'a' <= Suffix(f)[k] <= 'z' || Suffix(f)[k] == '-'
    ensures f != Root ==> Suffix(f) != ""
  {
    hide Suffix;
    if IsCheck(f) {
      CheckLetters(f);
    } else {
      OtherLetters(f);
    }
  }

  lemma Listed(f: Family)
    ensures f != Root ==> f in SUFFIXED
  {
    match f {
      case Root =>
      case Part => assert SUFFIXED[0] == f;
      case Describe => assert SUFFIXED[1] == f;
      case DescribeCheck => assert SUFFIXED[2] == f;
      case LocalValidationFix => assert SUFFIXED[3] == f;
      case Assess => assert SUFFIXED[4] == f;
      case Retro => assert SUFFIXED[5] == f;
      case ValidationPlan => assert SUFFIXED[6] == f;
      case Validate => assert SUFFIXED[7] == f;
      case ValidateFailure => assert SUFFIXED[8] == f;
      case LocalValidation => assert SUFFIXED[9] == f;
      case RemoteValidation => assert SUFFIXED[10] == f;
      case Plan => assert SUFFIXED[11] == f;
      case Appraisal => assert SUFFIXED[12] == f;
      case Investigate => assert SUFFIXED[13] == f;
      case CriteriaAlignment => assert SUFFIXED[14] == f;
      case PredictionJudge => assert SUFFIXED[15] == f;
      case Sequence => assert SUFFIXED[16] == f;
      case Split => assert SUFFIXED[17] == f;
      case Summary => assert SUFFIXED[18] == f;
      case Shortfall => assert SUFFIXED[19] == f;
      case ReviewStranded => assert SUFFIXED[20] == f;
    }
  }

  lemma SuffixPlain(f: Family)
    ensures ':' !in Suffix(f) && OneLiner(Suffix(f)) && (f != Root ==> Suffix(f) != "" && f in SUFFIXED)
  {
    SuffixLetters(f);
    Listed(f);
    hide Suffix;
  }

  lemma NamedOnce(f: Family, g: Family)
    requires Suffix(f) == Suffix(g)
    ensures f == g
  {
    Named(f);
    Named(g);
  }

  /** Whichever way a family is recognised, its suffix is what comes before the first colon. */
  lemma UnderLeads(f: Family, suffix: string)
    requires Under(f, suffix)
    ensures suffix[..Leading(suffix)] == Suffix(f)
  {
    SuffixPlain(f);
    var w := Suffix(f);
    hide Suffix;
    if IdPattern(f).None? {
      LeadingOf(w, "");
      assert w + "" == w;
    } else {
      var rest := suffix[|w|..];
      assert suffix == w + rest && rest[0] == suffix[|w|];
      assert (w + ":")[|w|] == ':';
      LeadingOf(w, rest);
    }
  }

  lemma IdUnder(f: Family, suffix: string)
    requires IdIn(f, suffix).Some?
    ensures Under(f, suffix)
  {
    hide Suffix;
  }

  lemma UnderOne(f: Family, g: Family, suffix: string)
    requires Under(f, suffix) && Under(g, suffix)
    ensures f == g
  {
    UnderLeads(f, suffix);
    UnderLeads(g, suffix);
    NamedOnce(f, g);
  }

  lemma {:induction false} FamilyFound(families: seq<Family>, f: Family, suffix: string)
    requires f in families && IdIn(f, suffix).Some?
    ensures FamilyIn(families, suffix) == Some((f, IdIn(f, suffix).value))
  {
    hide IdIn;
    var g := families[0];
    if IdIn(g, suffix).Some? {
      IdUnder(f, suffix);
      IdUnder(g, suffix);
      UnderOne(f, g, suffix);
    } else {
      FamilyFound(families[1..], f, suffix);
    }
  }

  lemma {:induction false} FamilyTold(families: seq<Family>, suffix: string)
    requires FamilyIn(families, suffix).Some?
    ensures var (f, id) := FamilyIn(families, suffix).value;
            f in families && IdIn(f, suffix) == Some(id)
  {
    hide IdIn;
    if IdIn(families[0], suffix).None? {
      FamilyTold(families[1..], suffix);
    }
  }

  lemma {:induction false} RoleFound(families: seq<Family>, f: Family, suffix: string)
    requires f in families && Under(f, suffix)
    ensures RoleIn(families, suffix) == RoleOf(f)
  {
    hide Under;
    var g := families[0];
    if Under(g, suffix) {
      UnderOne(f, g, suffix);
    } else {
      RoleFound(families[1..], f, suffix);
    }
  }

  // Heads

  lemma HeadAlone(number: nat)
    ensures Head(HeadRef(number)) == Some((Decimal(number), None))
  {
    var digits := Decimal(number);
    hide Decimal;
    assert ("issue:" + digits)[6..] == digits;
    DigitRunOf(digits, "");
    assert digits + "" == digits;
  }

  lemma HeadWith(number: nat, suffix: string)
    requires suffix != "" && OneLiner(suffix)
    ensures Head(HeadRef(number) + (":" + suffix)) == Some((Decimal(number), Some(suffix)))
  {
    var digits := Decimal(number);
    hide Decimal;
    var tail := ":" + suffix;
    var ref := HeadRef(number) + tail;
    assert ref[..6] == "issue:";
    assert ref[6..] == digits + tail;
    DigitRunOf(digits, tail);
    assert (digits + tail)[..|digits|] == digits;
    assert (digits + tail)[|digits|] == ':';
    assert (digits + tail)[|digits| + 1..] == suffix;
    hide DigitRun;
  }

  lemma SuffixRead(o: Origin)
    requires Valid(o) && o.family != Root
    ensures var suffix := SuffixText(o.family, o.id);
            suffix != "" && OneLiner(suffix) && IdIn(o.family, suffix) == Some(o.id)
  {
    SuffixPlain(o.family);
    var w := Suffix(o.family);
    hide Suffix;
    hide Fits;
    if o.id.Some? {
      var head := w + ":";
      var suffix := SuffixText(o.family, o.id);
      assert suffix == head + o.id.value;
      assert suffix[|head|..] == o.id.value;
    }
  }

  /** A printed reference parses to the origin it was printed for. */
  lemma ParseRef(o: Origin)
    requires Valid(o)
    ensures Parse(Ref(o)) == Some(o)
  {
    NumberOfDecimal(o.number);
    SuffixPlain(o.family);
    if o.family == Root {
      HeadAlone(o.number);
      hide Head;
    } else {
      SuffixRead(o);
      HeadWith(o.number, SuffixText(o.family, o.id));
      hide Suffix;
      hide Head;
      hide HeadRef;
      hide IdIn;
      hide Decimal;
      hide FamilyIn;
      hide SuffixText;
      FamilyFound(SUFFIXED, o.family, SuffixText(o.family, o.id));
    }
  }

  lemma HeadSplit(ref: string)
    requires Head(ref).Some?
    ensures var (digits, suffix) := Head(ref).value;
            && digits != "" && ref == "issue:" + digits + (if suffix.None? then "" else ":" + suffix.value)
            && (suffix.Some? ==> suffix.value != "" && OneLiner(suffix.value))
  {
    hide DigitRun;
    hide OneLiner;
    var rest := ref[6..];
    var n := DigitRun(rest);
    PrefixOff("issue:", ref);
    if n < |rest| {
      ColonOff(rest, n);
      Regroup("issue:", rest[..n], ":" + rest[n + 1..]);
    } else {
      Regroup("issue:", rest, "");
      assert rest + "" == rest;
    }
  }

  lemma PrefixOff(prefix: string, ref: string)
    requires prefix <= ref
    ensures ref == prefix + ref[|prefix|..]
  {
  }

  lemma ColonOff(rest: string, n: nat)
    requires n < |rest| && rest[n] == ':'
    ensures rest == rest[..n] + (":" + rest[n + 1..])
  {
  }

  lemma Regroup(a: string, b: string, c: string)
    ensures a + b + c == a + (b + c)
  {
  }

  lemma SuffixBack(f: Family, suffix: string)
    requires IdIn(f, suffix).Some? && OneLiner(suffix)
    ensures suffix == SuffixText(f, IdIn(f, suffix).value)
    ensures var id := IdIn(f, suffix).value;
            (id.Some? <==> IdPattern(f).Some?)
              && (id.Some? ==> Fits(IdPattern(f).value, id.value) && OneLiner(id.value))
  {
    var w := Suffix(f);
    hide Suffix;
    hide Fits;
    if IdPattern(f).Some? {
      var head := w + ":";
      var id := suffix[|head|..];
      assert suffix == head + id;
      Regroup(w, ":", id);
    }
  }

  /**
   * What parses is valid, and, where the source holds its number exactly, it is the reference printed for it exactly
   * when the number is written without leading zeros.
   */
  lemma RefParse(ref: string)
    requires Parse(ref).Some?
    ensures var o := Parse(ref).value;
            && Valid(o) && Head(ref).Some?
            && (o.number <= MAX_SAFE ==> (ref == Ref(o) <==> Head(ref).value.0 == Decimal(o.number)))
  {
    HeadSplit(ref);
    var (digits, suffix) := Head(ref).value;
    var o := Parse(ref).value;
    hide Head;
    if suffix.None? {
      assert "issue:" + digits + "" == "issue:" + digits;
      SamePrefix("issue:", digits, Decimal(o.number), "");
    } else {
      FamilyTold(SUFFIXED, suffix.value);
      SuffixBack(o.family, suffix.value);
      NotRoot(o.family);
      hide Suffix;
      hide FamilyIn;
      hide IdIn;
      hide SuffixText;
      SamePrefix("issue:", digits, Decimal(o.number), ":" + suffix.value);
    }
  }

  lemma NotRoot(f: Family)
    requires f in SUFFIXED
    ensures f != Root && Suffix(f) != ""
  {
    SuffixPlain(f);
  }

  lemma SamePrefix(a: string, x: string, y: string, b: string)
    ensures a + x + b == a + y + b <==> x == y
  {
    if a + x + b == a + y + b {
      assert |x| == |y|;
      assert (a + x + b)[|a|..|a| + |x|] == x && (a + y + b)[|a|..|a| + |y|] == y;
    }
  }

  // Roles

  lemma {:induction false} DigitsApart(m: nat, n: nat, rest: string)
    requires Decimal(m) + ":" <= Decimal(n) + rest && (rest == "" || !IsDigit(rest[0]))
    ensures m == n
  {
    var x, y := Decimal(m), Decimal(n);
    hide Decimal;
    var t := y + rest;
    var more := t[|x| + 1..];
    assert t == x + (":" + more);
    DigitRunOf(x, ":" + more);
    DigitRunOf(y, rest);
    assert t[..|x|] == x && t[..|y|] == y;
    DecimalInjective(m, n);
  }

  lemma HeadUnder(m: nat, n: nat, rest: string)
    requires HeadRef(m) + ":" <= HeadRef(n) + rest && (rest == "" || rest[0] == ':')
    ensures m == n
  {
    var x, y := Decimal(m), Decimal(n);
    hide Decimal;
    var t := HeadRef(n) + rest;
    assert t[6..] == y + rest;
    assert (HeadRef(m) + ":")[6..] == x + ":";
    assert t[..|HeadRef(m) + ":"|] == HeadRef(m) + ":";
    assert t[6..][..|x| + 1] == x + ":";
    DigitsApart(m, n, rest);
  }

  lemma HeadEqual(m: nat, n: nat)
    requires HeadRef(m) == HeadRef(n)
    ensures m == n
  {
    assert HeadRef(m)[6..] == Decimal(m) && HeadRef(n)[6..] == Decimal(n);
    DecimalInjective(m, n);
  }

  lemma HeadDigits(m: nat)
    ensures var ref := HeadRef(m); |ref| >= 6 && forall k :: 6 <= k < |ref| ==> IsDigit(ref[k])
  {
    var digits := Decimal(m);
    hide Decimal;
    assert forall k :: 6 <= k < |HeadRef(m)| ==> HeadRef(m)[k] == digits[k - 6];
  }

  lemma HeadNotWith(m: nat, n: nat, suffix: string)
    ensures HeadRef(m) != HeadRef(n) + (":" + suffix)
  {
    HeadDigits(m);
    HeadDigits(n);
    var t := HeadRef(n) + (":" + suffix);
    hide HeadRef;
    assert t[|HeadRef(n)|] == ':';
  }

  lemma NotUnderAlone(m: nat, n: nat)
    ensures !(HeadRef(m) + ":" <= HeadRef(n))
  {
    HeadDigits(m);
    HeadDigits(n);
    var p := HeadRef(m) + ":";
    hide HeadRef;
    assert p[|p| - 1] == ':';
  }

  lemma UnderItself(o: Origin)
    requires Valid(o) && o.family != Root
    ensures Under(o.family, SuffixText(o.family, o.id))
  {
    SuffixRead(o);
    IdUnder(o.family, SuffixText(o.family, o.id));
  }

  /** The role is judged on the suffix and never on the id: what follows a suffix and a colon has the role. */
  lemma RoleLenient(f: Family, number: nat, rest: string)
    requires IdPattern(f).Some?
    ensures RoleFor(number, HeadRef(number) + ":" + (Suffix(f) + ":" + rest)) == Some(RoleOf(f))
  {
    var root, suffix := HeadRef(number), Suffix(f) + ":" + rest;
    assert Under(f, suffix);
    assert f in SUFFIXED;
    hide Suffix;
    hide Under;
    hide HeadRef;
    RoleFound(SUFFIXED, f, suffix);
    assert (root + ":" + suffix)[|root| + 1..] == suffix;
    assert root + ":" <= root + ":" + suffix;
  }

  /** A reference has its family's role under its own issue, and none under any other. */
  lemma RoleRead(o: Origin, number: nat)
    requires Valid(o)
    ensures RoleFor(number, Ref(o)) == if number == o.number then Some(RoleOf(o.family)) else None
  {
    SuffixPlain(o.family);
    var ref, root := Ref(o), HeadRef(number);
    if o.family == Root {
      hide RoleIn;
      hide HeadRef;
      if ref == root {
        HeadEqual(number, o.number);
      }
      NotUnderAlone(number, o.number);
    } else {
      var suffix := SuffixText(o.family, o.id);
      UnderItself(o);
      hide Suffix;
      hide HeadRef;
      hide SuffixText;
      hide Under;
      HeadNotWith(number, o.number, suffix);
      if root + ":" <= ref {
        HeadUnder(number, o.number, ":" + suffix);
      }
      if number == o.number {
        Regroup(root, ":", suffix);
        assert (root + ":" + suffix)[|root| + 1..] == suffix;
        RoleFound(SUFFIXED, o.family, suffix);
      }
    }
  }
}
