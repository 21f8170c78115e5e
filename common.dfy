/** Values shared by every part of the model: optional values, the Python
    exceptions that can end a run, and a few facts about sequences. */
module Common {

  /** A JSON field that may be absent; also `NaN` where a missing value is stored. */
  datatype Option<T> = None | Some(value: T) {
    /** `d.get(key, default)`, or a `try`/`except KeyError` that falls back to `default`. */
    function GetOr(default: T): T {
      if Some? then value else default
    }
  }

  /** The exceptions that escape the recommender's own code and abort the run. */
  datatype Fault = KeyError | IndexError

  /** What a step computes, or the exception that aborts the run. */
  datatype Outcome<T> = Ok(value: T) | Crash(fault: Fault)

  predicate Distinct<T(==)>(s: seq<T>) {
    forall i, j :: 0 <= i < j < |s| ==> s[i] != s[j]
  }

  /** Two duplicate-free lists with no element in common concatenate to one. */
  lemma DistinctConcat<T>(a: seq<T>, b: seq<T>)
    requires Distinct(a) && Distinct(b)
    requires forall x :: x in b ==> x !in a
    ensures Distinct(a + b)
  {
    forall i, j | 0 <= i < j < |a + b|
      ensures (a + b)[i] != (a + b)[j]
    {
      if i < |a| <= j {
        assert (a + b)[i] == a[i] && (a + b)[j] == b[j - |a|];
        assert b[j - |a|] in b;
      }
    }
  }

  function Min(a: int, b: int): int {
    if a <= b then a else b
  }

  /** Python's `s[:n]`. */
  function Take<T>(s: seq<T>, n: nat): (r: seq<T>)
    ensures |r| == Min(n, |s|) && r == s[..|r|]
  {
    if |s| <= n then s else s[..n]
  }

  /** Python's `s.index(x)`: the position of the first occurrence of `x`. */
  function IndexOf<T(==)>(s: seq<T>, x: T): (i: nat)
    requires x in s
    ensures i < |s| && s[i] == x && x !in s[..i]
  {
    if s[0] == x then 0
    else
      assert x in s[1..];
      var j := IndexOf(s[1..], x);
      assert s[..j + 1] == [s[0]] + s[1..][..j];
      j + 1
  }
}
