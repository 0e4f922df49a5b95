// Where a follow-up part goes: the slug search of `src/delivery/shortfall.ts`.
module Shortfall {
  import opened Text

  /** A plan part, as far as the search looks at it. */
  datatype Part = Part(slug: string, retired: bool, hasWork: bool, hasBranch: bool, hasPr: bool)

  datatype Slot = Slot(slug: string, refreshing: bool)

  const SUFFIX := "-followup"

  function Base(slug: string): string {
    if |slug| >= |SUFFIX| && slug[|slug| - |SUFFIX|..] == SUFFIX then slug else slug + SUFFIX
  }

  /** The candidates in order: the base, then the base numbered from 2. */
  function Candidate(base: string, k: nat): string {
    if k == 0 then base else base + "-" + Decimal(k + 1)
  }

  /** The parts by slug; of two with one slug the later stands. */
  function BySlug(parts: seq<Part>): (m: map<string, Part>)
    ensures forall slug :: slug in m ==> m[slug] in parts && m[slug].slug == slug
    ensures forall p :: p in parts ==> p.slug in m
  {
    if parts == [] then map[]
    else
      var last := parts[|parts| - 1];
      assert forall p :: p in parts ==> p == last || p in parts[..|parts| - 1];
      BySlug(parts[..|parts| - 1])[last.slug := last]
  }

  predicate Free(m: map<string, Part>, slug: string) {
    slug !in m
  }

  predicate Unstarted(m: map<string, Part>, slug: string) {
    slug in m && !m[slug].retired && !m[slug].hasWork && !m[slug].hasBranch && !m[slug].hasPr
  }

  lemma CandidatesApart(base: string, i: nat, j: nat)
    requires i < j
    ensures Candidate(base, i) != Candidate(base, j)
  {
    var a, b := Candidate(base, i), Candidate(base, j);
    assert b == base + ("-" + Decimal(j + 1));
    if i > 0 && a == b {
      assert a == base + ("-" + Decimal(i + 1));
      assert a[|base| + 1..] == Decimal(i + 1) && b[|base| + 1..] == Decimal(j + 1);
      DecimalInjective(i + 1, j + 1);
    }
  }

  function Taken(base: string, n: nat): (s: set<string>)
    ensures forall c :: c in s <==> exists k :: 0 <= k < n && c == Candidate(base, k)
  {
    set k | 0 <= k < n :: Candidate(base, k)
  }

  lemma {:induction false} TakenCount(base: string, n: nat)
    ensures |Taken(base, n)| == n
  {
    hide Candidate;
    hide Taken;
    if n == 0 {
      assert Taken(base, n) == {};
    } else {
      TakenCount(base, n - 1);
      forall k | 0 <= k < n - 1 ensures Candidate(base, k) != Candidate(base, n - 1) {
        CandidatesApart(base, k, n - 1);
      }
      assert Candidate(base, n - 1) !in Taken(base, n - 1);
      assert Taken(base, n) == Taken(base, n - 1) + {Candidate(base, n - 1)};
    }
  }

  lemma {:induction false} SlugCount(parts: seq<Part>)
    ensures |BySlug(parts).Keys| <= |parts|
  {
    if parts != [] {
      var rest := parts[..|parts| - 1];
      SlugCount(rest);
      assert BySlug(parts).Keys == BySlug(rest).Keys + {parts[|parts| - 1].slug};
    }
  }

  lemma {:induction false} SubsetCount(a: set<string>, b: set<string>)
    requires a <= b
    ensures |a| <= |b|
  {
    if a != {} {
      var x :| x in a;
      SubsetCount(a - {x}, b - {x});
    }
  }

  /** Candidates that are all taken are no more than there are parts. */
  lemma TakenFit(parts: seq<Part>, base: string, n: nat)
    requires forall k :: 0 <= k < n ==> !Free(BySlug(parts), Candidate(base, k))
    ensures n <= |parts|
  {
    TakenCount(base, n);
    SlugCount(parts);
    assert Taken(base, n) <= BySlug(parts).Keys by {
      forall c | c in Taken(base, n) ensures c in BySlug(parts).Keys {
        var k :| 0 <= k < n && c == Candidate(base, k);
        assert !Free(BySlug(parts), Candidate(base, k));
      }
    }
    SubsetCount(Taken(base, n), BySlug(parts).Keys);
  }

  predicate Fits(m: map<string, Part>, slug: string) {
    Free(m, slug) || Unstarted(m, slug)
  }

  /** A part may take the slug: no part has it, or the last that does has nothing of its own yet and is not retired. */
  ghost predicate MayTake(parts: seq<Part>, slug: string) {
    || (forall p :: p in parts ==> p.slug != slug)
    || exists k :: LastOf(parts, slug, k) && !parts[k].retired && !parts[k].hasWork && !parts[k].hasBranch
                   && !parts[k].hasPr
  }

  predicate LastOf(parts: seq<Part>, slug: string, k: int) {
    0 <= k < |parts| && parts[k].slug == slug && forall j :: k < j < |parts| ==> parts[j].slug != slug
  }

  lemma {:induction false} BySlugLast(parts: seq<Part>, slug: string)
    ensures forall k :: LastOf(parts, slug, k) ==> slug in BySlug(parts) && BySlug(parts)[slug] == parts[k]
    ensures slug in BySlug(parts) ==> exists k :: LastOf(parts, slug, k)
  {
    hide LastOf;
    hide BySlug;
    if parts == [] {
      NoneLast(slug);
    } else {
      var n := |parts| - 1;
      BySlugLast(parts[..n], slug);
      BySlugOn(parts);
      if parts[n].slug == slug {
        LastIs(parts, slug);
      } else {
        LastBefore(parts, slug);
        if slug in BySlug(parts) {
          var k :| LastOf(parts[..n], slug, k);
          assert LastOf(parts, slug, k);
        }
      }
    }
  }

  lemma NoneLast(slug: string)
    ensures BySlug([]) == map[] && forall k :: !LastOf([], slug, k)
  {
  }

  lemma BySlugOn(parts: seq<Part>)
    requires parts != []
    ensures var n := |parts| - 1;
            BySlug(parts) == BySlug(parts[..n])[parts[n].slug := parts[n]]
  {
  }

  lemma LastIs(parts: seq<Part>, slug: string)
    requires parts != [] && parts[|parts| - 1].slug == slug
    ensures LastOf(parts, slug, |parts| - 1) && forall k :: LastOf(parts, slug, k) ==> k == |parts| - 1
  {
  }

  lemma LastBefore(parts: seq<Part>, slug: string)
    requires parts != [] && parts[|parts| - 1].slug != slug
    ensures forall k :: LastOf(parts, slug, k) <==> LastOf(parts[..|parts| - 1], slug, k)
    ensures forall k :: LastOf(parts, slug, k) ==>
              0 <= k < |parts| - 1 && parts[..|parts| - 1][k] == parts[k]
  {
    var front := parts[..|parts| - 1];
    assert forall k :: 0 <= k < |front| ==> front[k] == parts[k];
  }

  lemma FitsMeans(parts: seq<Part>, slug: string)
    ensures Fits(BySlug(parts), slug) <==> MayTake(parts, slug)
  {
    BySlugLast(parts, slug);
    if slug in BySlug(parts) {
      var k :| LastOf(parts, slug, k);
      assert parts[k] in parts;
    }
  }

  /** The candidates are the slug with `-followup` at its end, once, and then that numbered from 2. */
  lemma CandidateSays(slug: string, k: nat)
    ensures var base := if |slug| >= 9 && slug[|slug| - 9..] == "-followup" then slug else slug + "-followup";
            Candidate(Base(slug), k) == if k == 0 then base else base + "-" + Decimal(k + 1)
  {
  }

  lemma SlotMeans(base: string, parts: seq<Part>, k: nat)
    requires Fits(BySlug(parts), Candidate(base, k))
    requires forall i :: 0 <= i < k ==> !Fits(BySlug(parts), Candidate(base, i))
    ensures MayTake(parts, Candidate(base, k))
    ensures forall i :: 0 <= i < k ==> !MayTake(parts, Candidate(base, i))
  {
    hide Fits;
    hide MayTake;
    hide Candidate;
    FitsMeans(parts, Candidate(base, k));
    forall i | 0 <= i < k ensures !MayTake(parts, Candidate(base, i)) {
      FitsMeans(parts, Candidate(base, i));
    }
  }

  /** The first candidate that is free or not started, found within one more candidate than there are parts. */
  method FollowupSlot(part: Part, parts: seq<Part>) returns (slot: Slot, ghost k: nat)
    ensures k <= |parts|
    ensures slot.slug == Candidate(Base(part.slug), k) && MayTake(parts, slot.slug)
    ensures forall i :: 0 <= i < k ==> !MayTake(parts, Candidate(Base(part.slug), i))
    ensures slot.refreshing <==> exists p :: p in parts && p.slug == slot.slug
  {
    hide MayTake;
    var base := Base(part.slug);
    var bySlug := BySlug(parts);
    if Free(bySlug, base) {
      SlotMeans(base, parts, 0);
      return Slot(base, false), 0;
    }
    if Unstarted(bySlug, base) {
      SlotMeans(base, parts, 0);
      return Slot(base, true), 0;
    }
    var n := 2;
    while true
      invariant n >= 2
      invariant forall i :: 0 <= i < n - 1 ==> !Fits(bySlug, Candidate(base, i))
      decreases |parts| + 2 - n
    {
      TakenFit(parts, base, n - 1);
      var candidate := base + "-" + Decimal(n);
      assert candidate == Candidate(base, n - 1);
      if Free(bySlug, candidate) {
        SlotMeans(base, parts, n - 1);
        return Slot(candidate, false), n - 1;
      }
      if Unstarted(bySlug, candidate) {
        SlotMeans(base, parts, n - 1);
        return Slot(candidate, true), n - 1;
      }
      n := n + 1;
    }
  }

  /** A slot once followed up is followed up under its own name, not under a longer one. */
  lemma BaseStable(slug: string)
    ensures Base(Base(slug)) == Base(slug)
  {
    var s := slug + SUFFIX;
    assert s[|s| - |SUFFIX|..] == SUFFIX;
  }
}
