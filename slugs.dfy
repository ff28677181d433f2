/** Making slugs unique: a slug already taken gets the suffix `-1`, `-2`,
    ... (the first free one), and the chosen slug is then taken. Customer
    and supplier aggregation both do this with a `while` loop over a set
    of used slugs. */
module Slugs {
  import opened Chars
  import opened Text

  function DigitChar(d: nat): (c: char)
    requires d < 10
    ensures IsDigit(c) && DigitValue(c) == d
  {
    ('0' as int + d) as char
  }

  /** The decimal numeral of `n`, as a template literal prints it. */
  function NatToString(n: nat): (s: string)
    ensures s != [] && AllDigits(s)
    ensures DigitsValue(s) == n
  {
    if n < 10 then [DigitChar(n)]
    else
      var s := NatToString(n / 10) + [DigitChar(n % 10)];
      assert s[..|s| - 1] == NatToString(n / 10);
      s
  }

  lemma NatToStringInjective(j: nat, k: nat)
    requires NatToString(j) == NatToString(k)
    ensures j == k
  {
  }

  /** The `k`-th candidate for `base`: `base` itself, then `base-1`,
      `base-2`, ... */
  function Candidate(base: string, k: nat): string {
    if k == 0 then base else base + "-" + NatToString(k)
  }

  lemma CandidateInjective(base: string, j: nat, k: nat)
    requires Candidate(base, j) == Candidate(base, k)
    ensures j == k
  {
    if j != 0 && k != 0 {
      var a, b := Candidate(base, j), Candidate(base, k);
      assert a[|base| + 1..] == NatToString(j);
      assert b[|base| + 1..] == NatToString(k);
      NatToStringInjective(j, k);
    }
  }

  /** The set of the first `n` candidates. */
  ghost function Candidates(base: string, n: nat): set<string> {
    set j | 0 <= j < n :: Candidate(base, j)
  }

  lemma {:induction false} CandidatesSize(base: string, n: nat)
    ensures |Candidates(base, n)| == n
  {
    if n > 0 {
      CandidatesSize(base, n - 1);
      assert Candidates(base, n) == Candidates(base, n - 1) + {Candidate(base, n - 1)};
      if Candidate(base, n - 1) in Candidates(base, n - 1) {
        var j :| 0 <= j < n - 1 && Candidate(base, j) == Candidate(base, n - 1);
        CandidateInjective(base, j, n - 1);
        assert false;
      }
    }
  }

  /** At most `|used|` candidates can all be taken. */
  lemma CandidatesTaken(base: string, used: set<string>, n: nat)
    requires forall j :: 0 <= j < n ==> Candidate(base, j) in used
    ensures n <= |used|
  {
    CandidatesSize(base, n);
    assert Candidates(base, n) <= used;
    SubsetSize(Candidates(base, n), used);
  }

  lemma SubsetSize<T>(a: set<T>, b: set<T>)
    requires a <= b
    ensures |a| <= |b|
  {
    assert b == a + (b - a);
  }

  /** The first candidate from the `k`-th on that is not taken. */
  function FreeFrom(base: string, used: set<string>, k: nat): (s: string)
    requires forall j :: 0 <= j < k ==> Candidate(base, j) in used
    ensures s !in used
    ensures exists m :: FirstFree(base, used, m) && s == Candidate(base, m)
    decreases |used| - k
  {
    CandidatesTaken(base, used, k);
    if Candidate(base, k) !in used then
      assert FirstFree(base, used, k);
      Candidate(base, k)
    else
      CandidatesTaken(base, used, k + 1);
      FreeFrom(base, used, k + 1)
  }

  /** Candidate `m` is free and every earlier one is taken. */
  predicate FirstFree(base: string, used: set<string>, m: nat) {
    Candidate(base, m) !in used && forall j :: 0 <= j < m ==> Candidate(base, j) in used
  }

  /** The slug `base` ends up with when `used` are taken. */
  function FreshSlug(base: string, used: set<string>): (s: string)
    ensures s !in used
    ensures StartsWith(s, base)
    ensures exists m :: FirstFree(base, used, m) && s == Candidate(base, m)
  {
    var s := FreeFrom(base, used, 0);
    assert s[..|base|] == base by {
      var m :| FirstFree(base, used, m) && s == Candidate(base, m);
    }
    s
  }

  /** `s` is one of the candidates for `base`. */
  ghost predicate IsCandidate(s: string, base: string) {
    exists m :: s == Candidate(base, m)
  }

  lemma FirstFreeUnique(base: string, used: set<string>, m: nat, n: nat)
    requires FirstFree(base, used, m) && FirstFree(base, used, n)
    ensures m == n
  {
  }

  /** The slugs a sequence of base slugs ends up with, in order, when
      `used` are taken to begin with. */
  function AssignSlugs(bases: seq<string>, used: set<string>): (r: seq<string>)
    ensures |r| == |bases|
    decreases |bases|
  {
    if bases == [] then []
    else
      var s := FreshSlug(bases[0], used);
      [s] + AssignSlugs(bases[1..], used + {s})
  }

  /** The slugs given in turn are not taken to begin with, are pairwise
      different, and each is a candidate of its base. */
  lemma AssignSlugsFacts(bases: seq<string>, used: set<string>)
    ensures var r := AssignSlugs(bases, used);
      && (forall i :: 0 <= i < |r| ==> r[i] !in used)
      && (forall i, j :: 0 <= i < j < |r| ==> r[i] != r[j])
      && (forall i :: 0 <= i < |r| ==> IsCandidate(r[i], bases[i]))
  {
    AssignSlugsFresh(bases, used);
    AssignSlugsDistinct(bases, used);
    AssignSlugsCandidates(bases, used);
  }

  lemma {:induction false} AssignSlugsFresh(bases: seq<string>, used: set<string>)
    ensures forall i :: 0 <= i < |AssignSlugs(bases, used)| ==> AssignSlugs(bases, used)[i] !in used
    decreases |bases|
  {
    if bases != [] {
      var s := FreshSlug(bases[0], used);
      var rest := AssignSlugs(bases[1..], used + {s});
      AssignSlugsFresh(bases[1..], used + {s});
      var r := [s] + rest;
      assert forall i :: 1 <= i < |r| ==> r[i] == rest[i - 1];
    }
  }

  lemma {:induction false} AssignSlugsDistinct(bases: seq<string>, used: set<string>)
    ensures forall i, j :: 0 <= i < j < |AssignSlugs(bases, used)| ==> AssignSlugs(bases, used)[i] != AssignSlugs(bases, used)[j]
    decreases |bases|
  {
    if bases != [] {
      var s := FreshSlug(bases[0], used);
      var rest := AssignSlugs(bases[1..], used + {s});
      AssignSlugsFresh(bases[1..], used + {s});
      AssignSlugsDistinct(bases[1..], used + {s});
      var r := [s] + rest;
      assert AssignSlugs(bases, used) == r && r[0] == s;
      assert forall i :: 1 <= i < |r| ==> r[i] == rest[i - 1];
    }
  }

  lemma {:induction false} AssignSlugsCandidates(bases: seq<string>, used: set<string>)
    ensures forall i :: 0 <= i < |AssignSlugs(bases, used)| ==> IsCandidate(AssignSlugs(bases, used)[i], bases[i])
    decreases |bases|
  {
    if bases != [] {
      var s := FreshSlug(bases[0], used);
      var rest := AssignSlugs(bases[1..], used + {s});
      AssignSlugsCandidates(bases[1..], used + {s});
      var r := [s] + rest;
      assert forall i :: 1 <= i < |r| ==> r[i] == rest[i - 1] && bases[i] == bases[1..][i - 1];
    }
  }

  /** One step of the slug pass: the `i`-th slug is the fresh one for its
      base, which is then taken. */
  lemma AssignSlugsStep(bases: seq<string>, slugs: seq<string>, i: nat, used: set<string>)
    requires i < |bases| == |slugs|
    requires AssignSlugs(bases[i..], used) == slugs[i..]
    ensures slugs[i] == FreshSlug(bases[i], used)
    ensures AssignSlugs(bases[i + 1..], used + {slugs[i]}) == slugs[i + 1..]
  {
    assert bases[i..][1..] == bases[i + 1..];
    assert slugs[i..][0] == slugs[i] && slugs[i..][1..] == slugs[i + 1..];
  }

  /** The first slug is always its base slug when nothing is taken yet. */
  lemma AssignSlugsFirst(bases: seq<string>)
    requires bases != []
    ensures AssignSlugs(bases, {})[0] == bases[0]
  {
    var s := FreshSlug(bases[0], {});
    var m :| FirstFree(bases[0], {}, m) && s == Candidate(bases[0], m);
    assert FirstFree(bases[0], {}, 0);
    FirstFreeUnique(bases[0], {}, m, 0);
  }

  /** The `while (usedSlugs.has(slug))` loop: tries `base`, `base-1`,
      `base-2`, ... and returns the first one not in `used`. */
  method ResolveSlug(base: string, used: set<string>) returns (slug: string)
    ensures slug == FreshSlug(base, used)
  {
    slug := base;
    var counter := 1;
    while slug in used
      invariant counter >= 1
      invariant slug == Candidate(base, counter - 1)
      invariant forall j :: 0 <= j < counter - 1 ==> Candidate(base, j) in used
      decreases |used| - counter
    {
      CandidatesTaken(base, used, counter);
      slug := base + "-" + NatToString(counter);
      counter := counter + 1;
    }
    assert FirstFree(base, used, counter - 1);
    ghost var m :| FirstFree(base, used, m) && FreshSlug(base, used) == Candidate(base, m);
    FirstFreeUnique(base, used, m, counter - 1);
  }
}
