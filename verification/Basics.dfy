/** Shared vocabulary: optional values, results, Python text and bytes, ordered dictionaries. */
module Basics {
  datatype Option<+T> = None | Some(value: T)

  datatype Result<+T, +E> = Ok(value: T) | Err(error: E)

  type byte = x: int | 0 <= x < 256

  type bytes = seq<byte>

  /** A Python string element: any code point, lone surrogates included. */
  type CodePoint = x: int | 0 <= x <= 0x10FFFF

  type Text = seq<CodePoint>

  const NEWLINE := 0x0A

  /** The Python string written as a Dafny literal. */
  function Lit(s: string): (t: Text)
    ensures |t| == |s|
    ensures forall i :: 0 <= i < |s| ==> t[i] == s[i] as int
  {
    seq(|s|, i requires 0 <= i < |s| => s[i] as int)
  }

  lemma {:induction false} LitInjective(a: string, b: string)
    requires Lit(a) == Lit(b)
    ensures a == b
  {
    forall i | 0 <= i < |a|
      ensures a[i] == b[i]
    {
      assert Lit(a)[i] == a[i] as int;
      assert Lit(b)[i] == b[i] as int;
    }
  }

  lemma {:induction false} LitsDiffer(a: string, b: string)
    requires a != b
    ensures Lit(a) != Lit(b)
  {
    if Lit(a) == Lit(b) {
      LitInjective(a, b);
    }
  }

  lemma {:induction false} Assoc<T>(a: seq<T>, b: seq<T>, c: seq<T>)
    ensures a + b + c == a + (b + c)
  {
  }

  // ---- dictionaries: pairs in insertion order -----------------------------

  ghost predicate UniqueKeys<V>(d: seq<(Text, V)>) {
    forall i, j :: 0 <= i < j < |d| ==> d[i].0 != d[j].0
  }

  /** Where `key` is stored, if it is. */
  function IndexOf<V>(d: seq<(Text, V)>, key: Text): (r: Option<nat>)
    ensures r.Some? ==> r.value < |d| && d[r.value].0 == key
    ensures r.None? ==> forall i :: 0 <= i < |d| ==> d[i].0 != key
  {
    if d == [] then None
    else if d[0].0 == key then Some(0)
    else
      match IndexOf(d[1..], key)
      case None => assert forall i :: 1 <= i < |d| ==> d[i].0 == d[1..][i - 1].0; None
      case Some(i) => Some(i + 1)
  }

  predicate HasKey<V>(d: seq<(Text, V)>, key: Text) {
    IndexOf(d, key).Some?
  }

  /** The value stored under `key`. */
  function Lookup<V>(d: seq<(Text, V)>, key: Text): (v: V)
    requires HasKey(d, key)
  {
    d[IndexOf(d, key).value].1
  }

  /** `d[key] = value`: overwrite in place, or append at the end. */
  function DictSet<V>(d: seq<(Text, V)>, key: Text, value: V): (r: seq<(Text, V)>)
    ensures UniqueKeys(d) ==> UniqueKeys(r)
  {
    match IndexOf(d, key)
    case None => d + [(key, value)]
    case Some(i) => d[i := (key, value)]
  }
}
