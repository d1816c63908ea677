/** Shared vocabulary. */
module Prelude {

  datatype Option<+T> = None | Some(value: T)

  /** A call that may come back with an error instead of a value. */
  datatype Result<+T> = Ok(value: T) | Err

  type Byte = b: int | 0 <= b < 256

  type Bytes = seq<Byte>

  /** A hex digest; the empty string means that none is stored. */
  type Digest = string

  /** `a + tail == b + tail` only when `a == b`, with a common head in front. */
  lemma SameFrame(head: string, a: string, b: string, tail: string)
    requires head + a + tail == head + b + tail
    ensures a == b
  {
    assert |a| == |b|;
    forall i | 0 <= i < |a|
      ensures a[i] == b[i]
    {
      assert (head + a + tail)[|head| + i] == (head + b + tail)[|head| + i];
    }
  }

  lemma SameFrameTwice(head: string, a: string, b: string, mid: string, tail: string)
    requires head + a + mid + a + tail == head + b + mid + b + tail
    ensures a == b
  {
    var x, y := head + a + mid + a + tail, head + b + mid + b + tail;
    assert |a| == |b|;
    forall i | 0 <= i < |a|
      ensures a[i] == b[i]
    {
      assert x[|head| + i] == a[i] && y[|head| + i] == b[i];
    }
  }
}
