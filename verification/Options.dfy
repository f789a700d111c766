/** Absent values and failed calls, in place of the program's `None` and exceptions. */
module Options {
  datatype Option<+T> = None | Some(value: T)

  datatype Result<+T, +E> = Ok(value: T) | Err(error: E)

  /** Every element of `s`, without order or multiplicity. */
  function Elements<T(==)>(s: seq<T>): set<T> {
    set x | x in s
  }

  predicate Distinct<T(==)>(s: seq<T>) {
    forall i, j :: 0 <= i < j < |s| ==> s[i] != s[j]
  }

  predicate IsPrefix<T(==)>(a: seq<T>, b: seq<T>) {
    |a| <= |b| && b[..|a|] == a
  }

  ghost function AnyOf<T>(s: set<T>): (x: T)
    requires s != {}
    ensures x in s
  {
    var x :| x in s;
    x
  }

  method PickOne<T(==)>(s: set<T>) returns (x: T)
    requires s != {}
    ensures x in s
  {
    x :| x in s;
  }

  /** A list without its later repetitions. */
  function FirstOccurrences<T(==)>(s: seq<T>): seq<T> {
    if s == [] then []
    else
      var before := FirstOccurrences(s[..|s| - 1]);
      var x := s[|s| - 1];
      if x in before then before else before + [x]
  }

  lemma FirstOccurrencesOneMore<T>(s: seq<T>, x: T)
    ensures FirstOccurrences(s + [x]) ==
            if x in FirstOccurrences(s) then FirstOccurrences(s) else FirstOccurrences(s) + [x]
  {
    assert (s + [x])[..|s|] == s;
  }

  lemma {:induction false} FirstOccurrencesKeep<T>(s: seq<T>)
    ensures Distinct(FirstOccurrences(s))
    ensures forall x :: x in FirstOccurrences(s) <==> x in s
  {
    if s != [] {
      FirstOccurrencesKeep(s[..|s| - 1]);
      assert s == s[..|s| - 1] + [s[|s| - 1]];
    }
  }

  // ----- Selections by position -----

  /** `at` lists, in ascending order, exactly the positions below `n` at which `p` holds. */
  ghost predicate Enumerates(at: seq<nat>, n: nat, p: nat -> bool) {
    && (forall i, j :: 0 <= i < j < |at| ==> at[i] < at[j])
    && (forall k: nat :: k in at <==> k < n && p(k))
  }

  lemma EnumeratesOneMore(at: seq<nat>, n: nat, p: nat -> bool, q: nat -> bool)
    requires Enumerates(at, n, p) && forall k: nat :: k < n ==> p(k) == q(k)
    ensures Enumerates(if q(n) then at + [n] else at, n + 1, q)
  {
    var more: seq<nat> := if q(n) then at + [n] else at;
    assert forall i :: 0 <= i < |at| ==> at[i] in at;
    forall k: nat ensures k in more <==> k < n + 1 && q(k) {
      assert k in more <==> k in at || (q(n) && k == n);
    }
  }

  /** `r` is what is left of `s` when the elements at other positions are dropped. */
  ghost predicate Selects<T>(r: seq<T>, s: seq<T>, p: nat -> bool) {
    exists at: seq<nat> :: Enumerates(at, |s|, p) && IsAt(r, s, at)
  }

  predicate IsAt<T(==)>(r: seq<T>, s: seq<T>, at: seq<nat>) {
    |r| == |at| && forall i :: 0 <= i < |at| ==> at[i] < |s| && r[i] == s[at[i]]
  }

  lemma IsAtOneMore<T>(r: seq<T>, s: seq<T>, at: seq<nat>, x: T)
    requires IsAt(r, s, at)
    ensures IsAt(r, s + [x], at)
  {}

  lemma IsAtLast<T>(r: seq<T>, s: seq<T>, at: seq<nat>, x: T, more: seq<nat>)
    requires IsAt(r, s, at) && more == at + [|s|]
    ensures IsAt(r + [x], s + [x], more)
  {}

  /** One element more, kept or dropped. */
  lemma SelectsOneMore<T>(r: seq<T>, s: seq<T>, p: nat -> bool, x: T, q: nat -> bool)
    requires Selects(r, s, p) && forall k: nat :: k < |s| ==> p(k) == q(k)
    ensures Selects(if q(|s|) then r + [x] else r, s + [x], q)
  {
    var at: seq<nat> :| Enumerates(at, |s|, p) && IsAt(r, s, at);
    EnumeratesOneMore(at, |s|, p, q);
    if q(|s|) {
      var more: seq<nat> := at + [|s|];
      IsAtLast(r, s, at, x, more);
      assert Enumerates(more, |s + [x]|, q);
    } else {
      IsAtOneMore(r, s, at, x);
      assert Enumerates(at, |s + [x]|, q);
    }
  }

  /** The same, from what a list without its last element gives. */
  lemma SelectsLast<T>(r: seq<T>, s: seq<T>, p: nat -> bool, q: nat -> bool)
    requires s != [] && Selects(r, s[..|s| - 1], p) && forall k: nat :: k < |s| - 1 ==> p(k) == q(k)
    ensures Selects(if q(|s| - 1) then r + [s[|s| - 1]] else r, s, q)
  {
    SelectsOneMore(r, s[..|s| - 1], p, s[|s| - 1], q);
    assert s[..|s| - 1] + [s[|s| - 1]] == s;
  }

  lemma SelectsNone<T>(p: nat -> bool)
    ensures Selects<T>([], [], p)
  {
    var at: seq<nat> := [];
    assert Enumerates(at, 0, p) && IsAt<T>([], [], at);
  }

  predicate NewAt<T(==)>(s: seq<T>, k: nat) {
    k < |s| && s[k] !in s[..k]
  }

  /** The first occurrences, in their order. */
  lemma {:induction false} FirstOccurrencesSelected<T>(s: seq<T>)
    ensures Selects(FirstOccurrences(s), s, (k: nat) => NewAt(s, k))
  {
    var q := (k: nat) => NewAt(s, k);
    if s == [] {
      SelectsNone<T>(q);
    } else {
      var n := |s| - 1;
      FirstOccurrencesSelected(s[..n]);
      FirstOccurrencesKeep(s[..n]);
      var p := (k: nat) => NewAt(s[..n], k);
      forall k: nat | k < n ensures p(k) == q(k) {
        assert s[..n][..k] == s[..k];
      }
      SelectsLast(FirstOccurrences(s[..n]), s, p, q);
    }
  }
}
