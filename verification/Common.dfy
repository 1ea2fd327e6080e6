/** Types shared by every component of the model. */
module Common {

  /** One octet, as the C++ code sees it through `unsigned char`. */
  type Byte = b: int | 0 <= b < 256

  type Bytes = seq<Byte>

  datatype Option<+T> = None | Some(value: T)

  /** `opal::Outcome`: a value, or an error that carries its message. */
  datatype Outcome<+T> = Ok(value: T) | Err(error: string) {
    predicate IsFailure() { Err? }

    function PropagateFailure<U>(): Outcome<U>
      requires Err?
    {
      Err(error)
    }

    function Extract(): T
      requires Ok?
    {
      value
    }
  }

  /** A condition as the number it adds to a count. */
  function AsCount(b: bool): nat {
    if b then 1 else 0
  }

  /** The byte of an ASCII character. */
  function AsciiCode(c: char): (b: Byte)
    ensures b < 128 && (c as int < 128 ==> b == c as int)
  {
    if c as int < 128 then c as int else 63
  }

  predicate AllAscii(s: Bytes) {
    forall i | 0 <= i < |s| :: s[i] < 128
  }

  /** The bytes of an ASCII literal. */
  function Ascii(s: string): (r: Bytes)
    ensures |r| == |s| && (forall i | 0 <= i < |s| :: r[i] == AsciiCode(s[i])) && AllAscii(r)
  {
    if s == [] then [] else [AsciiCode(s[0])] + Ascii(s[1..])
  }

  /** Decimal digits without leading zeros, as `std::to_string` writes them. */
  function Decimal(n: nat): (r: Bytes)
    ensures r != [] && forall i | 0 <= i < |r| :: 48 <= r[i] <= 57
  {
    if n < 10 then [48 + n] else Decimal(n / 10) + [48 + n % 10]
  }

  /** A queue stays between what came in and what was taken out when more comes in and more is taken. */
  lemma QueueStep<T>(came: seq<T>, taken: seq<T>, queue: seq<T>, more: seq<T>, took: seq<T>, left: seq<T>)
    requires came == taken + queue && queue + more == took + left
    ensures came + more == taken + took + left
  {
    assert taken + queue + more == taken + (queue + more) && taken + took + left == taken + (took + left);
  }

  /** Putting what was done so far in front of what the rest yields. */
  function Prepend<T>(done: seq<T>, r: Outcome<seq<T>>): Outcome<seq<T>> {
    match r
    case Err(e) => Err(e)
    case Ok(rest) => Ok(done + rest)
  }

  lemma PrependTwice<T>(a: seq<T>, b: seq<T>, r: Outcome<seq<T>>)
    ensures Prepend(a, Prepend(b, r)) == Prepend(a + b, r) && Prepend([], r) == r
  {
    if r.Ok? {
      assert a + (b + r.value) == a + b + r.value && [] + r.value == r.value;
    }
  }

  predicate Occurs(s: Bytes, p: Bytes, i: nat) {
    i + |p| <= |s| && s[i..i + |p|] == p
  }

  /** Where p first occurs in s. */
  function Find(s: Bytes, p: Bytes): (r: Option<nat>)
    ensures r.None? ==> forall i: nat :: !Occurs(s, p, i)
    ensures r.Some? ==> Occurs(s, p, r.value) && forall i: nat | i < r.value :: !Occurs(s, p, i)
  {
    FindFrom(s, p, 0)
  }

  function FindFrom(s: Bytes, p: Bytes, from: nat): (r: Option<nat>)
    ensures r.None? ==> forall i: nat | from <= i :: !Occurs(s, p, i)
    ensures r.Some? ==> from <= r.value && Occurs(s, p, r.value) && forall i: nat | from <= i < r.value :: !Occurs(s, p, i)
    decreases |s| - from
  {
    if from + |p| > |s| then None
    else if Occurs(s, p, from) then Some(from)
    else FindFrom(s, p, from + 1)
  }

  lemma FirstIs(s: Bytes, p: Bytes, k: nat)
    requires Occurs(s, p, k) && forall i: nat | i < k :: !Occurs(s, p, i)
    ensures Find(s, p) == Some(k)
  {
  }
}
