/** Order-preserving de-duplication, as the installer writes it twice:
    `list(dict.fromkeys(xs))` and a loop over a `seen` set. */
module Seqs {
  import opened Wrappers

  predicate Distinct<T(==)>(s: seq<T>) {
    forall i, j :: 0 <= i < j < |s| ==> s[i] != s[j]
  }

  /** The elements of `s`, each at its first occurrence, in the order of `s`. */
  function Dedup<T(==)>(s: seq<T>): (r: seq<T>)
    ensures forall i :: 0 <= i < |r| ==> r[i] in s
    ensures forall i :: 0 <= i < |s| ==> s[i] in r
    ensures Distinct(r)
    ensures |r| <= |s|
  {
    if s == [] then []
    else
      var init := Dedup(s[..|s| - 1]);
      var last := s[|s| - 1];
      assert s == s[..|s| - 1] + [last];
      if last in s[..|s| - 1] then init else init + [last]
  }

  /** De-duplicating only ever appends: the result for a prefix of `s` is a
      prefix of the result for `s`, so earlier first occurrences come first. */
  lemma {:induction false} DedupPrefix<T>(s: seq<T>, i: nat)
    requires i <= |s|
    ensures Dedup(s[..i]) <= Dedup(s)
    decreases |s| - i
  {
    if i < |s| {
      assert s[..|s|][..|s| - 1] == s[..|s| - 1];
      assert s[..|s| - 1][..i] == s[..i];
      DedupPrefix(s[..|s| - 1], i);
      assert s[..|s|] == s;
    } else {
      assert s[..i] == s;
    }
  }

  /** The first element of the input stays first. */
  lemma DedupHead<T>(s: seq<T>)
    requires s != []
    ensures Dedup(s) != [] && Dedup(s)[0] == s[0]
  {
    DedupPrefix(s, 1);
    assert s[..1] == [s[0]];
    assert Dedup(s[..1]) == [s[0]] by {
      assert s[..1][..0] == [];
    }
  }

  /** A list without repeats is left as it is. */
  lemma {:induction false} DedupOfDistinct<T>(s: seq<T>)
    requires Distinct(s)
    ensures Dedup(s) == s
  {
    if s != [] {
      var init := s[..|s| - 1];
      assert Distinct(init);
      DedupOfDistinct(init);
      assert s[|s| - 1] !in init;
      assert init + [s[|s| - 1]] == s;
    }
  }

  /** De-duplicating twice is de-duplicating once. */
  lemma DedupIdempotent<T>(s: seq<T>)
    ensures Dedup(Dedup(s)) == Dedup(s)
  {
    DedupOfDistinct(Dedup(s));
  }

  /** One more input element: it is appended exactly when it is new. */
  lemma DedupStep<T>(s: seq<T>, i: nat)
    requires i < |s|
    ensures Dedup(s[..i + 1]) == if s[i] in s[..i] then Dedup(s[..i]) else Dedup(s[..i]) + [s[i]]
  {
    var t := s[..i + 1];
    assert t[..|t| - 1] == s[..i];
    assert t[|t| - 1] == s[i];
  }

  /** The de-duplicating loop: a `seen` set and an output list grown in order. */
  method DedupInOrder<T(==)>(s: seq<T>) returns (r: seq<T>)
    ensures r == Dedup(s)
  {
    var seen: set<T> := {};
    r := [];
    var i := 0;
    while i < |s|
      invariant i <= |s|
      invariant r == Dedup(s[..i])
      invariant forall x :: x in seen <==> x in s[..i]
    {
      DedupStep(s, i);
      assert s[..i + 1] == s[..i] + [s[i]];
      if s[i] !in seen {
        seen := seen + {s[i]};
        r := r + [s[i]];
      }
      i := i + 1;
    }
    assert s[..i] == s;
  }

  /** The present values of `xs`, in order: what a loop that appends only
      the successful results collects. */
  function Somes<T>(xs: seq<Option<T>>): (r: seq<T>)
    ensures |r| <= |xs|
    decreases |xs|
  {
    if xs == [] then []
    else
      var last := xs[|xs| - 1];
      Somes(xs[..|xs| - 1]) + (if last.Some? then [last.value] else [])
  }

  /** A value is collected exactly when some entry holds it. */
  lemma {:induction false} SomesMembership<T>(xs: seq<Option<T>>, v: T)
    ensures v in Somes(xs) <==> exists k :: 0 <= k < |xs| && xs[k] == Some(v)
    decreases |xs|
  {
    if xs != [] {
      var init := xs[..|xs| - 1];
      SomesMembership(init, v);
      if v in Somes(xs) && v in Somes(init) {
        var k :| 0 <= k < |init| && init[k] == Some(v);
        assert xs[k] == init[k];
      }
      if k :| 0 <= k < |xs| && xs[k] == Some(v) {
        if k < |init| {
          assert init[k] == xs[k];
        }
      }
    }
  }
}
