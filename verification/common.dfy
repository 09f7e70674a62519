/** Shared vocabulary of the chatbot model: an Option type standing for
    "the call returned / the call raised", and the few Python string and
    list primitives the pipeline leans on (`str.lower`, `str.endswith`,
    `str.join`, and list indexing with negative positions). */
module Common {

  datatype Option<+T> = None | Some(value: T)

  /** ASCII lower-casing of one character, as `str.lower` does on ASCII. */
  function LowerChar(c: char): (r: char)
    ensures 'A' <= c <= 'Z' ==> 'a' <= r <= 'z'
    ensures !('A' <= c <= 'Z') ==> r == c
  {
    if 'A' <= c <= 'Z' then (c as int - 'A' as int + 'a' as int) as char else c
  }

  function Lower(s: string): (r: string)
    ensures |r| == |s|
    ensures forall i :: 0 <= i < |s| ==> r[i] == LowerChar(s[i])
  {
    if |s| == 0 then [] else [LowerChar(s[0])] + Lower(s[1..])
  }

  predicate EndsWith(s: string, suffix: string)
  {
    |suffix| <= |s| && s[|s| - |suffix|..] == suffix
  }

  /** `sep.join(parts)`: the parts in order, with `sep` between neighbours. */
  function Join(parts: seq<string>, sep: string): string
    decreases |parts|
  {
    if |parts| == 0 then ""
    else if |parts| == 1 then parts[0]
    else parts[0] + sep + Join(parts[1..], sep)
  }

  function SumLengths(parts: seq<string>): nat
    decreases |parts|
  {
    if |parts| == 0 then 0 else |parts[0]| + SumLengths(parts[1..])
  }

  /** Joining never loses a part: every part occurs in the joined string at
      the offset left by the parts and separators before it. */
  lemma {:induction false} JoinContainsParts(parts: seq<string>, sep: string, i: nat)
    requires i < |parts|
    ensures var off := SumLengths(parts[..i]) + i * |sep|;
            off + |parts[i]| <= |Join(parts, sep)| &&
            Join(parts, sep)[off..off + |parts[i]|] == parts[i]
    decreases |parts|
  {
    var j := Join(parts, sep);
    if |parts| == 1 {
      assert parts[..0] == [];
    } else if i == 0 {
      assert parts[..0] == [];
      assert j == parts[0] + (sep + Join(parts[1..], sep));
    } else {
      var rest := parts[1..];
      JoinContainsParts(rest, sep, i - 1);
      var off' := SumLengths(rest[..i - 1]) + (i - 1) * |sep|;
      assert parts[..i][1..] == rest[..i - 1];
      assert SumLengths(parts[..i]) == |parts[0]| + SumLengths(rest[..i - 1]);
      assert i * |sep| == (i - 1) * |sep| + |sep|;
      var pre := parts[0] + sep;
      assert j == pre + Join(rest, sep);
      SliceAfterPrefix(pre, Join(rest, sep), off', off' + |parts[i]|);
    }
  }

  lemma SliceAfterPrefix(pre: string, t: string, a: nat, b: nat)
    requires a <= b <= |t|
    ensures (pre + t)[|pre| + a..|pre| + b] == t[a..b]
  {
  }

  /** Python's `xs[i]`: defined for -len(xs) <= i < len(xs), negative
      positions counting from the end; anything else raises IndexError. */
  function PyIndex<T>(xs: seq<T>, i: int): (r: Option<T>)
    ensures r.Some? <==> -|xs| <= i < |xs|
    ensures 0 <= i < |xs| ==> r == Some(xs[i])
    ensures -|xs| <= i < 0 ==> r == Some(xs[|xs| + i])
  {
    if 0 <= i < |xs| then Some(xs[i])
    else if -|xs| <= i < 0 then Some(xs[|xs| + i])
    else None
  }
}
