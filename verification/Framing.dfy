/** The bytes a request fingerprint hashes: every field behind its length as a big-endian u64. */
module Framing {
  import opened Wrappers
  import opened Bytes

  const U64_MAX: nat := 0xFFFF_FFFF_FFFF_FFFF

  function LengthBytes(field: seq<Byte>): seq<Byte> {
    BigEndian(if |field| <= U64_MAX then |field| else U64_MAX, 8)
  }

  function Frame(fields: seq<seq<Byte>>): seq<Byte> {
    if fields == [] then [] else LengthBytes(fields[0]) + fields[0] + Frame(fields[1..])
  }

  /** Reads frames back until the bytes are used up. */
  function Unframe(bytes: seq<Byte>): Option<seq<seq<Byte>>>
    decreases |bytes|
  {
    if bytes == [] then Some([])
    else if |bytes| < 8 then None
    else
      var length := FromBigEndian(bytes[..8]);
      if |bytes| < 8 + length then None
      else
        match Unframe(bytes[8 + length..])
        case None => None
        case Some(rest) => Some([bytes[8..8 + length]] + rest)
  }

  ghost predicate Addressable(fields: seq<seq<Byte>>) {
    forall i :: 0 <= i < |fields| ==> |fields[i]| <= U64_MAX
  }

  lemma {:induction false} UnframeFrame(fields: seq<seq<Byte>>)
    requires Addressable(fields)
    ensures Unframe(Frame(fields)) == Some(fields)
    decreases |fields|
  {
    if fields != [] {
      var first, rest := fields[0], fields[1..];
      var bytes := Frame(fields);
      assert Pow256(8) == U64_MAX + 1;
      BigEndianRoundTrip(|first|, 8);
      assert bytes[..8] == LengthBytes(first) && FromBigEndian(bytes[..8]) == |first|;
      assert bytes[8..8 + |first|] == first;
      assert bytes[8 + |first|..] == Frame(rest);
      UnframeFrame(rest);
      assert fields == [first] + rest;
    }
  }

  lemma FrameOf(field: seq<Byte>, fields: seq<seq<Byte>>)
    ensures Frame([field] + fields) == LengthBytes(field) + field + Frame(fields)
  {
    assert ([field] + fields)[1..] == fields;
  }

  lemma LengthOf(bytes: seq<Byte>, field: seq<Byte>)
    requires |bytes| == 8 && |field| == FromBigEndian(bytes)
    ensures LengthBytes(field) == bytes && |field| <= U64_MAX
  {
    assert Pow256(8) == U64_MAX + 1;
    FromBigEndianRoundTrip(bytes);
  }

  lemma Parts(bytes: seq<Byte>, length: nat)
    requires |bytes| >= 8 + length
    ensures bytes == bytes[..8] + bytes[8..8 + length] + bytes[8 + length..]
  {}

  lemma FirstFrame(bytes: seq<Byte>) returns (head: seq<Byte>, field: seq<Byte>, rest: seq<Byte>)
    requires bytes != [] && Unframe(bytes).Some?
    ensures bytes == head + field + rest && |head| == 8 && |field| == FromBigEndian(head)
    ensures Unframe(rest).Some? && Unframe(bytes).value == [field] + Unframe(rest).value
  {
    var length := FromBigEndian(bytes[..8]);
    head, field, rest := bytes[..8], bytes[8..8 + length], bytes[8 + length..];
    Parts(bytes, length);
  }

  /** Bytes that can be read as frames are the framing of what was read. */
  lemma {:induction false} FrameUnframe(bytes: seq<Byte>)
    requires Unframe(bytes).Some?
    ensures Frame(Unframe(bytes).value) == bytes && Addressable(Unframe(bytes).value)
    decreases |bytes|
  {
    if bytes != [] {
      var head, field, rest := FirstFrame(bytes);
      FrameUnframe(rest);
      LengthOf(head, field);
      FrameOf(field, Unframe(rest).value);
    }
  }

  /** The framing of any list of fields is uniquely decodable. */
  lemma FrameIsInjective(a: seq<seq<Byte>>, b: seq<seq<Byte>>)
    requires Addressable(a) && Addressable(b) && Frame(a) == Frame(b)
    ensures a == b
  {
    UnframeFrame(a);
    UnframeFrame(b);
  }

  /** The running digest: what was fed to it so far, in order. */
  class Hasher {
    var fed: seq<Byte>

    constructor ()
      ensures fed == []
    {
      fed := [];
    }

    method Update(bytes: seq<Byte>)
      modifies this
      ensures fed == old(fed) + bytes
    {
      fed := fed + bytes;
    }

    method AppendFramed(value: seq<Byte>)
      modifies this
      ensures fed == old(fed) + Frame([value])
    {
      Update(LengthBytes(value));
      Update(value);
      SingleFrame(value);
    }
  }

  /** What `RequestFingerprint::calculate` hashes for one request. */
  method Fingerprinted(operation: seq<Byte>, path: seq<Byte>, body: seq<Byte>) returns (fed: seq<Byte>)
    ensures fed == Frame([operation, path, body])
  {
    var hasher := new Hasher();
    hasher.AppendFramed(operation);
    hasher.AppendFramed(path);
    hasher.AppendFramed(body);
    fed := hasher.fed;
    ThreeFrames(operation, path, body);
  }

  lemma SingleFrame(value: seq<Byte>)
    ensures Frame([value]) == LengthBytes(value) + value
  {
    FrameOf(value, []);
    assert [value] + [] == [value];
  }

  lemma ThreeFrames(a: seq<Byte>, b: seq<Byte>, c: seq<Byte>)
    ensures Frame([a, b, c]) == Frame([a]) + Frame([b]) + Frame([c])
  {
    SingleFrame(a);
    SingleFrame(b);
    FrameOf(a, [b] + [c]);
    FrameOf(b, [c]);
    assert [a] + ([b] + [c]) == [a, b, c];
    assert Frame([a]) + (Frame([b]) + Frame([c])) == Frame([a]) + Frame([b]) + Frame([c]);
  }

  /** Two requests feed the digest the same bytes only if they agree in all three parts. */
  lemma FingerprintBindsTheRequest(
    operation: seq<Byte>, path: seq<Byte>, body: seq<Byte>, operation': seq<Byte>, path': seq<Byte>, body': seq<Byte>)
    requires Addressable([operation, path, body]) && Addressable([operation', path', body'])
    ensures Frame([operation, path, body]) == Frame([operation', path', body']) <==>
      operation == operation' && path == path' && body == body'
  {
    if Frame([operation, path, body]) == Frame([operation', path', body']) {
      FrameIsInjective([operation, path, body], [operation', path', body']);
      assert [operation, path, body][0] == [operation', path', body'][0];
      assert [operation, path, body][1] == [operation', path', body'][1];
      assert [operation, path, body][2] == [operation', path', body'][2];
    }
  }
}
