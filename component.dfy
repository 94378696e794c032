/**
 * Entities, component type identifiers and the read-only span over a store
 * (src/component.hpp).
 */
module Component {
  /** 2^64: the modulus of `size_t` / `std::uint64_t` arithmetic. */
  const U64: int := 0x1_0000_0000_0000_0000

  type U64Value = x: int | 0 <= x < U64

  /** An entity is a 64-bit identifier; 0 is never a live entity. */
  type Entity = U64Value
  const INVALID_ENTITY: Entity := 0

  /** Components are padded to this many bytes in their stores. */
  const COMPONENT_PADDING_SIZE: nat := 1024

  /** A component type is identified by the hash of its type name. */
  type ComponentType = U64Value

  type Byte = b: int | 0 <= b < 256

  /** The value a `char` byte contributes when it is read into an `int` (chars are signed). */
  function SignedChar(b: Byte): (c: int)
    ensures -128 <= c < 128
    ensures c % 256 == b % 256
  {
    if b < 128 then b else b - 256
  }

  /** The C string a byte buffer denotes: everything before the first NUL byte. */
  function CString(s: seq<Byte>): (r: seq<Byte>)
    ensures |r| <= |s| && r == s[..|r|]
    ensures forall k :: 0 <= k < |r| ==> r[k] != 0
    ensures |r| < |s| ==> s[|r|] == 0
  {
    if s == [] || s[0] == 0 then [] else [s[0]] + CString(s[1..])
  }

  /** The djb2 hash h = h * 33 + c over the bytes of `s`, in wrap-around 64-bit arithmetic. */
  function Djb2(s: seq<Byte>): (h: U64Value)
  {
    if s == [] then 5381 else (Djb2(s[..|s| - 1]) * 33 + SignedChar(s[|s| - 1])) % U64
  }

  /**
   * The compile-time hash of a NUL-terminated name: it reads bytes until it
   * meets a zero byte (or the end of the buffer) and folds each into h.
   */
  method Hash(str: seq<Byte>) returns (h: U64Value)
    ensures h == Djb2(CString(str))
  {
    h := 5381;
    var k := 0;
    while k < |str| && str[k] != 0
      invariant 0 <= k <= |str|
      invariant forall j :: 0 <= j < k ==> str[j] != 0
      invariant h == Djb2(str[..k])
    {
      assert str[..k + 1][..k] == str[..k];
      ShiftAddStep(h, SignedChar(str[k]));
      h := ((h * 32) % U64 + h + SignedChar(str[k])) % U64;
      k := k + 1;
    }
    CStringIsPrefix(str, k);
  }

  /** `(h << 5) + h + c` in size_t arithmetic is one djb2 step. */
  lemma ShiftAddStep(h: U64Value, c: int)
    ensures ((h * 32) % U64 + h + c) % U64 == (h * 33 + c) % U64
  {
    var q := (h * 32) / U64;
    assert h * 32 == q * U64 + (h * 32) % U64;
    assert h * 33 + c == ((h * 32) % U64 + h + c) + q * U64;
  }

  /** Stopping at the first zero byte yields exactly the C string. */
  lemma {:induction false} CStringIsPrefix(s: seq<Byte>, k: nat)
    requires k <= |s|
    requires forall j :: 0 <= j < k ==> s[j] != 0
    requires k == |s| || s[k] == 0
    ensures CString(s) == s[..k]
  {
    if k > 0 {
      CStringIsPrefix(s[1..], k - 1);
      assert s[..k] == [s[0]] + s[1..][..k - 1];
    }
  }

  /** Bytes after the terminating NUL never influence the hash. */
  lemma HashIgnoresTail(s: seq<Byte>, tail: seq<Byte>)
    ensures Djb2(CString(s + [0] + tail)) == Djb2(CString(s))
  {
    var r := CString(s);
    CStringIsPrefix(s + [0] + tail, |r|);
    CStringIsPrefix(s, |r|);
    assert (s + [0] + tail)[..|r|] == s[..|r|];
  }

  /** Appending one byte folds it into the previous hash. */
  lemma Djb2Step(s: seq<Byte>, b: Byte)
    ensures Djb2(s + [b]) == (Djb2(s) * 33 + SignedChar(b)) % U64
  {
    assert (s + [b])[..|s|] == s;
  }

  /**
   * A span over the live records of one store: the first `count` slots of
   * `components`.
   */
  datatype ComponentsSpan<C> = ComponentsSpan(components: seq<C>, count: nat)
  {
    ghost predicate Valid() { count <= |components| }

    predicate Empty() { count == 0 }

    function Front(): (c: C)
      requires Valid() && count > 0
    {
      components[0]
    }

    function Back(): (c: C)
      requires Valid() && count > 0
    {
      components[count - 1]
    }

    function At(index: nat): (c: C)
      requires Valid() && index < count
    {
      components[index]
    }

    /** The sequence a range-for over the span visits, from begin() to end(). */
    function Elements(): (r: seq<C>)
      requires Valid()
      ensures |r| == count
      ensures forall k :: 0 <= k < count ==> r[k] == At(k)
    {
      components[..count]
    }
  }

  /** Iterating a span visits exactly its live records in slot order. */
  method Iterate<C>(span: ComponentsSpan<C>) returns (visited: seq<C>)
    requires span.Valid()
    ensures visited == span.Elements()
  {
    visited := [];
    var k := 0;
    while k < span.count
      invariant 0 <= k <= span.count
      invariant visited == span.components[..k]
    {
      visited := visited + [span.At(k)];
      k := k + 1;
    }
  }

  /** front() is the first element visited and back() the last; an empty span visits nothing. */
  lemma SpanEnds<C>(span: ComponentsSpan<C>)
    requires span.Valid()
    ensures span.Empty() <==> span.Elements() == []
    ensures !span.Empty() ==> span.Front() == span.Elements()[0]
    ensures !span.Empty() ==> span.Back() == span.Elements()[span.count - 1]
  {
  }
}
