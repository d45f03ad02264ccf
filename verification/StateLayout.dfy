/** The structural check of a decoded state: a fixed block, then one length-prefixed vector
    for every element width, and nothing after the last. */
module StateLayout {
  import opened Common
  import opened Bytes
  import opened TokenModel

  // ---------------------------------------------------------------- the format

  /** A serialized vector: a 32-bit element count within the cap, then the elements. */
  predicate VectorOk(v: bytes, width: nat) {
    |v| >= 4 && Value(v[..4]) <= MAXIMUM_VECTOR_ELEMENTS && |v| == 4 + Value(v[..4]) * width
  }

  function Concat(vs: seq<bytes>): bytes {
    if vs == [] then [] else vs[0] + Concat(vs[1..])
  }

  ghost predicate SplitsInto(data: bytes, vs: seq<bytes>, widths: seq<nat>) {
    |vs| == |widths| && data == Concat(vs) && forall i :: 0 <= i < |vs| ==> VectorOk(vs[i], widths[i])
  }

  /** The strings the format allows. */
  ghost predicate LayoutOk(decoded: bytes, fixedSize: nat, widths: seq<nat>) {
    |decoded| >= fixedSize && exists vs :: SplitsInto(decoded[fixedSize..], vs, widths)
  }

  // ---------------------------------------------------------------- greedy parsing

  /** Reading vectors from the front, each as long as its own count says. */
  predicate Consumes(data: bytes, widths: seq<nat>) {
    if widths == [] then data == []
    else
      |data| >= 4 && Value(data[..4]) <= MAXIMUM_VECTOR_ELEMENTS
      && Value(data[..4]) * widths[0] <= |data| - 4
      && Consumes(data[4 + Value(data[..4]) * widths[0]..], widths[1..])
  }

  lemma {:induction false} ConsumesSplits(data: bytes, widths: seq<nat>) returns (vs: seq<bytes>)
    requires Consumes(data, widths)
    ensures SplitsInto(data, vs, widths)
  {
    hide Value;
    if widths == [] {
      vs := [];
    } else {
      var n := 4 + Value(data[..4]) * widths[0];
      var rest := ConsumesSplits(data[n..], widths[1..]);
      vs := [data[..n]] + rest;
      assert VectorOk(data[..n], widths[0]) by {
        assert data[..n][..4] == data[..4];
      }
      assert data == data[..n] + data[n..];
      hide Consumes;
      OneMore(data[..n], widths[0], data[n..], rest, widths[1..]);
      assert widths == [widths[0]] + widths[1..];
    }
  }

  lemma OneMore(v: bytes, width: nat, data: bytes, vs: seq<bytes>, widths: seq<nat>)
    requires VectorOk(v, width) && SplitsInto(data, vs, widths)
    ensures SplitsInto(v + data, [v] + vs, [width] + widths)
  {
    hide VectorOk;
    assert ([v] + vs)[1..] == vs;
  }

  lemma {:induction false} SplitsConsume(data: bytes, vs: seq<bytes>, widths: seq<nat>)
    requires SplitsInto(data, vs, widths)
    ensures Consumes(data, widths)
  {
    if widths != [] {
      assert VectorOk(vs[0], widths[0]);
      assert data[..4] == vs[0][..4] && data[|vs[0]|..] == Concat(vs[1..]);
      assert SplitsInto(Concat(vs[1..]), vs[1..], widths[1..]);
      SplitsConsume(data[|vs[0]|..], vs[1..], widths[1..]);
    }
  }

  /** Length prefixes leave no choice: greedy reading accepts exactly the format. */
  lemma ConsumesExactly(data: bytes, widths: seq<nat>)
    ensures Consumes(data, widths) <==> exists vs :: SplitsInto(data, vs, widths)
  {
    if Consumes(data, widths) {
      var _ := ConsumesSplits(data, widths);
    }
    if vs :| SplitsInto(data, vs, widths) {
      SplitsConsume(data, vs, widths);
    }
  }

  // ---------------------------------------------------------------- the checks

  method ConsumeBytes(decoded: bytes, count: nat, position: nat) returns (ok: bool, next: nat)
    ensures ok <==> position + count <= |decoded|
    ensures next == if ok then position + count else position
  {
    if position > |decoded| || count > |decoded| - position {
      return false, position;
    }
    return true, position + count;
  }

  method ReadCount(decoded: bytes, position: nat) returns (ok: bool, count: nat, next: nat)
    ensures ok <==> position + 4 <= |decoded| && Value(decoded[position..position + 4]) <= MAXIMUM_VECTOR_ELEMENTS
    ensures ok ==> next == position + 4 && count == Value(decoded[position..next])
  {
    count := 0;
    ok, next := ConsumeBytes(decoded, 4, position);
    if !ok {
      return;
    }
    var start := next - 4;
    var raw := decoded[start] as int + decoded[start + 1] as int * 0x100
               + decoded[start + 2] as int * 0x1_0000 + decoded[start + 3] as int * 0x100_0000;
    FourByteValue(decoded[start..next]);
    if raw > MAXIMUM_VECTOR_ELEMENTS {
      return false, 0, next;
    }
    count := raw;
  }

  lemma FourByteValue(s: bytes)
    requires |s| == 4
    ensures Value(s) == s[0] as int + s[1] as int * 0x100 + s[2] as int * 0x1_0000 + s[3] as int * 0x100_0000
  {
    assert s[1..][1..] == s[2..] && s[2..][1..] == s[3..] && s[3..][1..] == [];
    assert Value(s[3..]) == s[3] && Value(s[2..]) == s[2] as int + 256 * Value(s[3..]);
  }

  /** ConsumeVector: the count, an overflow guard on the byte size, and the elements. */
  method ConsumeVector(decoded: bytes, position: nat, width: nat) returns (ok: bool, next: nat)
    requires position <= |decoded| && 0 < width <= UINT64_MAX / MAXIMUM_VECTOR_ELEMENTS
    ensures next <= |decoded|
    ensures forall rest :: Consumes(decoded[position..], [width] + rest) <==> ok && Consumes(decoded[next..], rest)
  {
    var count;
    ok, count, next := ReadCount(decoded, position);
    if position + 4 <= |decoded| {
      assert decoded[position..][..4] == decoded[position..position + 4];
    }
    if !ok {
      RejectVector(decoded[position..], width);
      return false, position;
    }
    CountFits(count, width);
    if count > UINT64_MAX / width {
      return false, position;
    }
    ok, next := ConsumeBytes(decoded, count * width, next);
    if !ok {
      RejectVector(decoded[position..], width);
      return false, position;
    }
    forall rest ensures Consumes(decoded[position..], [width] + rest) <==> Consumes(decoded[next..], rest) {
      assert ([width] + rest)[1..] == rest;
      assert decoded[position..][4 + count * width..] == decoded[next..];
    }
  }

  lemma RejectVector(data: bytes, width: nat)
    requires !(|data| >= 4 && Value(data[..4]) <= MAXIMUM_VECTOR_ELEMENTS && Value(data[..4]) * width <= |data| - 4)
    ensures forall rest :: !Consumes(data, [width] + rest)
  {
  }

  /** The overflow guard never fires for elements of any realistic size. */
  lemma CountFits(count: nat, width: nat)
    requires count <= MAXIMUM_VECTOR_ELEMENTS && 0 < width <= UINT64_MAX / MAXIMUM_VECTOR_ELEMENTS
    ensures count <= UINT64_MAX / width
  {
    MulMonotone(count, MAXIMUM_VECTOR_ELEMENTS, width);
    assert MAXIMUM_VECTOR_ELEMENTS * width <= UINT64_MAX;
    if UINT64_MAX / width < count {
      MulStrict(UINT64_MAX / width, count, width);
    }
  }

  /** Accepts exactly the strings that split into the fixed block and one bounded vector
      per element width, with nothing left over. */
  method ValidateStateLayout(decoded: bytes, fixedSize: nat, widths: seq<nat>) returns (valid: bool)
    requires forall i :: 0 <= i < |widths| ==> 0 < widths[i] <= UINT64_MAX / MAXIMUM_VECTOR_ELEMENTS
    ensures valid <==> LayoutOk(decoded, fixedSize, widths)
  {
    hide Consumes, SplitsInto;
    var ok, position := ConsumeBytes(decoded, fixedSize, 0);
    if !ok {
      return false;
    }
    ConsumesExactly(decoded[fixedSize..], widths);
    assert widths[0..] == widths;
    for index := 0 to |widths|
      invariant 0 <= position <= |decoded|
      invariant Consumes(decoded[fixedSize..], widths) <==> Consumes(decoded[position..], widths[index..])
    {
      var accepted, next := ConsumeVector(decoded, position, widths[index]);
      assert widths[index..] == [widths[index]] + widths[index + 1..];
      if !accepted {
        return false;
      }
      position := next;
    }
    ConsumesNothing(decoded, position, widths[|widths|..]);
    return position == |decoded|;
  }

  lemma ConsumesNothing(decoded: bytes, position: nat, rest: seq<nat>)
    requires position <= |decoded| && rest == []
    ensures Consumes(decoded[position..], rest) <==> position == |decoded|
  {
  }
}
