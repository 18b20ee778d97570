/** The available-days list of the sign-up and profile forms, which both pages edit the
    same way: through a `Set` built from the list and turned back into an array. */
module Days {
  import opened Common

  /** `Array.from(new Set(s))`: the first occurrence of each value, in order. */
  function Dedup(s: seq<string>): (r: seq<string>)
    ensures Distinct(r)
    ensures forall x :: x in r <==> x in s
    decreases |s|
  {
    if s == [] then []
    else
      var d := Dedup(s[..|s| - 1]);
      assert s == s[..|s| - 1] + [s[|s| - 1]];
      if s[|s| - 1] in d then d else d + [s[|s| - 1]]
  }

  /** A `Set` iterates in insertion order: a day already listed changes nothing, a new
      one goes last. */
  lemma DedupAppend(s: seq<string>, x: string)
    ensures Dedup(s + [x]) == if x in s then Dedup(s) else Dedup(s) + [x]
  {
    var t := s + [x];
    assert t[..|t| - 1] == s;
  }

  /** A list without repeats comes back as it is. */
  lemma {:induction false} DedupDistinct(s: seq<string>)
    requires Distinct(s)
    ensures Dedup(s) == s
    decreases |s|
  {
    if s != [] {
      var p := s[..|s| - 1];
      assert Distinct(p) by {
        forall i, j | 0 <= i < j < |p| ensures p[i] != p[j] { assert p[i] == s[i] && p[j] == s[j]; }
      }
      DedupDistinct(p);
      assert s[|s| - 1] !in p by {
        forall i | 0 <= i < |p| ensures p[i] != s[|s| - 1] { assert p[i] == s[i]; }
      }
    }
  }

  /** The days of a prefix come first and in the same order, so each day is placed where
      it first occurs. */
  lemma {:induction false} DedupPrefix(s: seq<string>, n: nat)
    requires n <= |s|
    ensures Dedup(s[..n]) <= Dedup(s)
    decreases |s| - n
  {
    if n < |s| {
      DedupPrefix(s, n + 1);
      DedupPrefixStep(s, n);
      PrefixTransitive(Dedup(s[..n]), Dedup(s[..n + 1]), Dedup(s));
    } else {
      assert s[..n] == s;
    }
  }

  lemma DedupPrefixStep(s: seq<string>, n: nat)
    requires n < |s|
    ensures Dedup(s[..n]) <= Dedup(s[..n + 1])
  {
    assert s[..n + 1] == s[..n] + [s[n]];
    DedupAppend(s[..n], s[n]);
  }

  lemma PrefixTransitive(a: seq<string>, b: seq<string>, c: seq<string>)
    requires a <= b && b <= c
    ensures a <= c
  {
    assert a == b[..|a|];
    assert b == c[..|b|];
    assert c[..|b|][..|a|] == c[..|a|];
  }

  /** Removing a day and deduplicating commute. */
  lemma {:induction false} DedupFilter(s: seq<string>, p: string -> bool)
    ensures Filter(Dedup(s), p) == Dedup(Filter(s, p))
    decreases |s|
  {
    if s != [] {
      var q, x := s[..|s| - 1], s[|s| - 1];
      assert s == q + [x];
      DedupFilter(q, p);
      FilterAppend(q, [x], p);
      DedupFilterStep(q, x, p);
    }
  }

  lemma DedupFilterStep(q: seq<string>, x: string, p: string -> bool)
    requires Filter(Dedup(q), p) == Dedup(Filter(q, p))
    ensures Filter(Dedup(q + [x]), p) == Dedup(Filter(q, p) + Filter([x], p))
  {
    var fq := Filter(q, p);
    DedupAppend(q, x);
    assert Filter([x], p) == (if p(x) then [x] else []) by {
      assert [x][1..] == [];
    }
    if p(x) {
      DedupAppend(fq, x);
      if x in q {
        FilterKeeps(q, p, x);
      } else {
        FilterAppend(Dedup(q), [x], p);
      }
    } else {
      assert fq + [] == fq;
      if x !in q {
        FilterAppend(Dedup(q), [x], p);
      }
    }
  }

  /** The list `toggleDay` stores: the set of days with the code added or deleted. */
  function ToggleDays(days: seq<string>, code: string, checked: bool): seq<string> {
    var present := Dedup(days);
    if checked then AddOnce(present, code) else Filter(present, (d: string) => d != code)
  }

  /** Checking a day lists it last and deduplicates; unchecking deduplicates the list
      without it. Either way the days keep the order of their first occurrences. */
  lemma ToggleDaysOrder(days: seq<string>, code: string)
    ensures ToggleDays(days, code, true) == Dedup(days + [code])
    ensures ToggleDays(days, code, false) == Dedup(Filter(days, (d: string) => d != code))
  {
    DedupAppend(days, code);
    DedupFilter(days, (d: string) => d != code);
  }

  lemma {:induction false} DistinctOnce(s: seq<string>, x: string)
    requires Distinct(s) && x in s
    ensures multiset(s)[x] == 1
  {
    if s[0] == x {
      assert x !in s[1..];
      assert s == [s[0]] + s[1..];
    } else {
      assert s == [s[0]] + s[1..];
      DistinctOnce(s[1..], x);
    }
  }

  /** Checking a day leaves it in the list exactly once, unchecking leaves it out, every
      other day stays as it was, and no day is listed twice. */
  lemma ToggleDaysSpec(days: seq<string>, code: string, checked: bool)
    ensures var r := ToggleDays(days, code, checked);
      && Distinct(r)
      && (checked ==> multiset(r)[code] == 1)
      && (!checked ==> code !in r)
      && (forall d :: d != code ==> (d in r <==> d in days))
  {
    var present := Dedup(days);
    var r := ToggleDays(days, code, checked);
    if checked {
      DistinctOnce(r, code);
    } else {
      FilterDistinct(present, (d: string) => d != code);
      forall d | d != code && d in days
        ensures d in r
      {
        FilterKeeps(present, (d: string) => d != code, d);
      }
    }
  }
}
