/** Integers and state vectors on the wire, and the clocks announced as persisted. */
module Codecs {
  import opened Options
  import opened Sequences

  type Byte = b: int | 0 <= b < 256

  // ----- unsigned LEB128 -----

  /** Seven bits a byte, lowest first; all but the last byte have the top bit set. */
  function EncodeVarUint(n: nat): (r: seq<Byte>)
    ensures r != []
  {
    if n <= 127 then [n] else [128 + n % 128] + EncodeVarUint(n / 128)
  }

  datatype Taken<+T> = Taken(value: T, rest: seq<Byte>)

  /** The integer at the front and what follows it; nothing if the bytes end first. */
  function DecodeVarUint(bytes: seq<Byte>): Option<Taken<nat>>
  {
    if bytes == [] then None
    else if bytes[0] < 128 then Some(Taken(bytes[0], bytes[1..]))
    else
      match DecodeVarUint(bytes[1..])
      case None => None
      case Some(t) => Some(Taken(bytes[0] % 128 + 128 * t.value, t.rest))
  }

  lemma {:induction false} VarUintRoundTrip(n: nat, rest: seq<Byte>)
    ensures DecodeVarUint(EncodeVarUint(n) + rest) == Some(Taken(n, rest))
  {
    var bytes := EncodeVarUint(n) + rest;
    if n <= 127 {
      assert bytes[1..] == rest;
    } else {
      VarUintRoundTrip(n / 128, rest);
      assert bytes[1..] == EncodeVarUint(n / 128) + rest;
    }
  }

  /** Every integer read is given by the bytes consumed, of which the encoding of that integer is the shortest form. */
  lemma {:induction false} EncodingIsShortest(bytes: seq<Byte>)
    requires DecodeVarUint(bytes).Some?
    ensures var t := DecodeVarUint(bytes).value;
      && |t.rest| < |bytes| && bytes == bytes[..|bytes| - |t.rest|] + t.rest
      && |EncodeVarUint(t.value)| <= |bytes| - |t.rest|
      && (EncodeVarUint(t.value) == bytes[..|bytes| - |t.rest|] <==>
            |bytes| - |t.rest| == 1 || bytes[|bytes| - |t.rest| - 1] != 0)
  {
    var t := DecodeVarUint(bytes).value;
    if bytes[0] >= 128 {
      var tail := bytes[1..];
      EncodingIsShortest(tail);
      var inner := DecodeVarUint(tail).value;
      var k := |tail| - |inner.rest|;
      LongIsSplit(bytes, k);
      if inner.value == 0 {
        ZeroEndsInZero(tail);
        hide DecodeVarUint;
        assert EncodeVarUint(t.value) == [t.value];
      } else {
        hide DecodeVarUint;
        if k == 1 { OneByteIsItself(inner.value, tail[..k]); }
        LongEncoding(bytes[0], inner.value, tail[..k]);
        hide EncodeVarUint;
      }
    }
  }

  lemma OneByteIsItself(n: nat, bytes: seq<Byte>)
    requires EncodeVarUint(n) == bytes && |bytes| == 1
    ensures bytes[0] == n
  {
  }

  /** An integer of several bytes: the first, and the `k` bytes of the rest of it. */
  lemma LongIsSplit(bytes: seq<Byte>, k: nat)
    requires DecodeVarUint(bytes).Some? && bytes[0] >= 128
    requires 0 < k == |bytes[1..]| - |DecodeVarUint(bytes[1..]).value.rest|
    requires bytes[1..] == bytes[1..][..k] + DecodeVarUint(bytes[1..]).value.rest
    ensures var t, inner := DecodeVarUint(bytes).value, DecodeVarUint(bytes[1..]).value;
      && t.rest == inner.rest && t.value == bytes[0] % 128 + 128 * inner.value
      && bytes == bytes[..k + 1] + t.rest && bytes[..k + 1] == [bytes[0]] + bytes[1..][..k] && bytes[k] == bytes[1..][k - 1]
  {
    var t, inner := DecodeVarUint(bytes).value, DecodeVarUint(bytes[1..]).value;
    assert t.rest == inner.rest && t.value == bytes[0] % 128 + 128 * inner.value;
    hide DecodeVarUint;
    PrefixOfTail(bytes, k, inner.rest);
  }

  lemma PrefixOfTail(bytes: seq<Byte>, k: nat, rest: seq<Byte>)
    requires bytes != [] && 0 < k <= |bytes[1..]| && bytes[1..] == bytes[1..][..k] + rest
    ensures bytes == bytes[..k + 1] + rest && bytes[..k + 1] == [bytes[0]] + bytes[1..][..k] && bytes[k] == bytes[1..][k - 1]
  {
    assert bytes[..k + 1] == [bytes[0]] + bytes[1..][..k];
    assert bytes == [bytes[0]] + bytes[1..];
  }

  lemma LongEncoding(first: Byte, n: nat, bytes: seq<Byte>)
    requires first >= 128 && n > 0
    ensures |EncodeVarUint(first % 128 + 128 * n)| == 1 + |EncodeVarUint(n)|
    ensures EncodeVarUint(first % 128 + 128 * n) == [first] + bytes <==> EncodeVarUint(n) == bytes
  {
    var m := first % 128 + 128 * n;
    assert m % 128 == first - 128 && m / 128 == n;
    assert EncodeVarUint(m) == [first] + EncodeVarUint(n);
    if [first] + EncodeVarUint(n) == [first] + bytes {
      assert EncodeVarUint(n) == ([first] + EncodeVarUint(n))[1..] == ([first] + bytes)[1..] == bytes;
    }
  }

  lemma {:induction false} ZeroEndsInZero(bytes: seq<Byte>)
    requires DecodeVarUint(bytes).Some? && DecodeVarUint(bytes).value.value == 0
    ensures var k := |bytes| - |DecodeVarUint(bytes).value.rest|; 0 < k <= |bytes| && bytes[k - 1] == 0
  {
    if bytes[0] >= 128 {
      ZeroEndsInZero(bytes[1..]);
    }
  }

  class Writer {
    var bytes: seq<Byte>

    constructor ()
      ensures bytes == []
    {
      bytes := [];
    }

    method VarUint(value: nat)
      modifies this
      ensures bytes == old(bytes) + EncodeVarUint(value)
    {
      var n := value;
      while n > 127
        invariant bytes + EncodeVarUint(n) == old(bytes) + EncodeVarUint(value)
        decreases n
      {
        assert bytes + [128 + n % 128] + EncodeVarUint(n / 128) == bytes + ([128 + n % 128] + EncodeVarUint(n / 128));
        bytes := bytes + [128 + n % 128];
        n := n / 128;
      }
      bytes := bytes + [n];
    }

    method VarBytes(value: seq<Byte>)
      modifies this
      ensures bytes == old(bytes) + Delimited(value)
    {
      VarUint(|value|);
      bytes := bytes + value;
    }
  }

  function Delimited(value: seq<Byte>): seq<Byte>
  {
    EncodeVarUint(|value|) + value
  }

  /** What is left to read; a position may be past the end. */
  function From(bytes: seq<Byte>, pos: nat): seq<Byte>
  {
    if pos <= |bytes| then bytes[pos..] else []
  }

  /** The announced number of bytes, or as many as there are. */
  function TakeBytes(bytes: seq<Byte>): Option<Taken<seq<Byte>>>
  {
    match DecodeVarUint(bytes)
    case None => None
    case Some(t) =>
      var n := if t.value <= |t.rest| then t.value else |t.rest|;
      Some(Taken(t.rest[..n], t.rest[n..]))
  }

  /** Having read `result` so far, what is left completes the integer `whole` started with. */
  ghost predicate Completes(whole: Option<Taken<nat>>, bytes: seq<Byte>, result: int, multiplier: int)
  {
    match whole
    case None => DecodeVarUint(bytes) == None
    case Some(t) => DecodeVarUint(bytes).Some? && DecodeVarUint(bytes).value.rest == t.rest
                    && t.value == result + DecodeVarUint(bytes).value.value * multiplier
  }

  lemma OneMoreByte(whole: Option<Taken<nat>>, bytes: seq<Byte>, result: int, multiplier: int)
    requires Completes(whole, bytes, result, multiplier) && bytes != []
    ensures bytes[0] < 128 ==> whole.Some? && whole.value.value == result + bytes[0] * multiplier && whole.value.rest == bytes[1..]
    ensures bytes[0] >= 128 ==> Completes(whole, bytes[1..], result + bytes[0] % 128 * multiplier, multiplier * 128)
  {
    var low := bytes[0] % 128;
    if bytes[0] >= 128 && whole.Some? {
      var inner := DecodeVarUint(bytes[1..]).value.value;
      assert (low + 128 * inner) * multiplier == low * multiplier + inner * (multiplier * 128);
    }
  }

  class Reader {
    var pos: nat
    const bytes: seq<Byte>

    constructor (bytes: seq<Byte>)
      ensures this.bytes == bytes && pos == 0
    {
      this.bytes := bytes;
      pos := 0;
    }

    function Rest(): seq<Byte>
      reads this
    {
      From(bytes, pos)
    }

    /** Nothing stands for the error thrown when the bytes end too early. */
    method VarUint() returns (r: Option<nat>)
      modifies this
      ensures match DecodeVarUint(old(Rest()))
        case None => r == None
        case Some(t) => r == Some(t.value) && Rest() == t.rest
    {
      ghost var whole := DecodeVarUint(Rest());
      var result, multiplier := 0, 1;
      while pos < |bytes|
        invariant Completes(whole, Rest(), result, multiplier)
        decreases |bytes| - pos
      {
        var byte: int := bytes[pos];
        OneMoreByte(whole, Rest(), result, multiplier);
        hide Completes, DecodeVarUint;
        assert Rest()[0] == byte && Rest()[1..] == From(bytes, pos + 1);
        pos := pos + 1;
        if byte < 128 { return Some(result + byte * multiplier); }
        result := result + byte % 128 * multiplier;
        multiplier := multiplier * 128;
      }
      pos := pos + 1;
      return None;
    }

    method VarBytes() returns (r: Option<seq<Byte>>)
      modifies this
      ensures match TakeBytes(old(Rest()))
        case None => r == None
        case Some(t) => r == Some(t.value) && Rest() == t.rest
      ensures match DecodeVarUint(old(Rest()))
        case None => r == None
        case Some(t) => r.Some? && t.rest == r.value + Rest() && |r.value| <= t.value && (|r.value| < t.value ==> Rest() == [])
    {
      var length := VarUint();
      if length.None? { return None; }
      var start := if pos <= |bytes| then pos else |bytes|;
      var end := if pos + length.value <= |bytes| then pos + length.value else |bytes|;
      r := Some(bytes[start..end]);
      ghost var left := Rest();
      pos := pos + length.value;
      ghost var n := if length.value <= |left| then length.value else |left|;
      assert r.value == left[..n] && Rest() == left[n..];
    }
  }

  // ----- state vectors: a clock for each client -----

  /** A client's clock; a client the vector does not mention has made no change. */
  function ClockOf(vector: map<nat, nat>, client: nat): nat
  {
    if client in vector then vector[client] else 0
  }

  function Entry(client: nat, clock: nat): seq<Byte>
  {
    EncodeVarUint(client) + EncodeVarUint(clock)
  }

  function Entries(order: seq<nat>, vector: map<nat, nat>): seq<Byte>
  {
    if order == [] then [] else Entry(order[0], ClockOf(vector, order[0])) + Entries(order[1..], vector)
  }

  /** The clients of a vector, each once, in whatever order it is iterated. */
  ghost predicate Lists(order: seq<nat>, vector: map<nat, nat>)
  {
    NoDuplicates(order) && forall c :: c in order <==> c in vector
  }

  function VectorBytes(order: seq<nat>, vector: map<nat, nat>): seq<Byte>
  {
    EncodeVarUint(|order|) + Entries(order, vector)
  }

  ghost predicate IsEncoding(bytes: seq<Byte>, vector: map<nat, nat>, order: seq<nat>)
  {
    Lists(order, vector) && bytes == VectorBytes(order, vector)
  }

  /** The bytes are the vector's entries after their number, in some order. */
  ghost predicate Encodes(bytes: seq<Byte>, vector: map<nat, nat>)
  {
    exists order :: IsEncoding(bytes, vector, order)
  }

  function TakeEntry(bytes: seq<Byte>): Option<Taken<(nat, nat)>>
  {
    match DecodeVarUint(bytes)
    case None => None
    case Some(client) =>
      match DecodeVarUint(client.rest)
      case None => None
      case Some(clock) => Some(Taken((client.value, clock.value), clock.rest))
  }

  function DecodeEntries(bytes: seq<Byte>, count: nat, vector: map<nat, nat>): Option<map<nat, nat>>
    decreases count
  {
    if count == 0 then Some(vector)
    else
      match TakeEntry(bytes)
      case None => None
      case Some(t) => DecodeEntries(t.rest, count - 1, vector[t.value.0 := t.value.1])
  }

  /** Nothing stands for the error thrown on bytes that end too early. */
  function DecodeVector(bytes: seq<Byte>): Option<map<nat, nat>>
  {
    match DecodeVarUint(bytes)
    case None => None
    case Some(t) => DecodeEntries(t.rest, t.value, map[])
  }

  lemma EntryRoundTrip(client: nat, clock: nat, rest: seq<Byte>)
    ensures TakeEntry(Entry(client, clock) + rest) == Some(Taken((client, clock), rest))
  {
    VarUintRoundTrip(client, EncodeVarUint(clock) + rest);
    VarUintRoundTrip(clock, rest);
    hide EncodeVarUint, DecodeVarUint;
    assert Entry(client, clock) + rest == EncodeVarUint(client) + (EncodeVarUint(clock) + rest);
  }

  /** Reading a listing back adds its entries to what was read before. */
  lemma {:induction false} EntriesRoundTrip(order: seq<nat>, vector: map<nat, nat>, before: map<nat, nat>)
    ensures var r := DecodeEntries(Entries(order, vector), |order|, before);
      && r.Some? && r.value.Keys == before.Keys + (set c | c in order)
      && forall c | c in r.value :: r.value[c] == if c in order then ClockOf(vector, c) else before[c]
    decreases order
  {
    if order != [] {
      var first, rest := order[0], order[1..];
      var clock := ClockOf(vector, first);
      EntryRoundTrip(first, clock, Entries(rest, vector));
      EntriesRoundTrip(rest, vector, before[first := clock]);
      hide Entry, TakeEntry;
      assert order == [first] + rest;
    }
  }

  lemma VectorRoundTrip(order: seq<nat>, vector: map<nat, nat>)
    requires Lists(order, vector)
    ensures DecodeVector(VectorBytes(order, vector)) == Some(vector)
  {
    var entries := Entries(order, vector);
    VarUintRoundTrip(|order|, entries);
    EntriesRoundTrip(order, vector, map[]);
    hide DecodeVarUint, EncodeVarUint, Entries, DecodeEntries;
    var r := DecodeEntries(entries, |order|, map[]).value;
    assert DecodeVector(VectorBytes(order, vector)) == Some(r);
    assert r.Keys == vector.Keys by { assert forall c :: c in order <==> c in vector; }
    assert r == vector;
  }

  lemma EncodesDecodes(bytes: seq<Byte>, vector: map<nat, nat>)
    requires Encodes(bytes, vector)
    ensures DecodeVector(bytes) == Some(vector)
  {
    var order :| IsEncoding(bytes, vector, order);
    VectorRoundTrip(order, vector);
    hide DecodeVector, VectorBytes;
  }

  lemma {:induction false} EntriesGrow(order: seq<nat>, vector: map<nat, nat>, client: nat)
    ensures Entries(order + [client], vector) == Entries(order, vector) + Entry(client, ClockOf(vector, client))
  {
    var last := Entry(client, ClockOf(vector, client));
    if order == [] {
      assert ([] + [client])[1..] == [];
      assert last + [] == last;
    } else {
      var first, rest := Entry(order[0], ClockOf(vector, order[0])), Entries(order[1..], vector);
      EntriesGrow(order[1..], vector, client);
      assert (order + [client])[1..] == order[1..] + [client];
      assert Entries(order + [client], vector) == first + (rest + last);
      assert Entries(order, vector) == first + rest;
      hide *;
      assert first + (rest + last) == first + rest + last;
    }
  }

  lemma {:induction false} DistinctSize(order: seq<nat>, clients: set<nat>)
    requires NoDuplicates(order) && forall c :: c in order <==> c in clients
    ensures |order| == |clients|
  {
    if order != [] {
      var n := |order| - 1;
      assert order == order[..n] + [order[n]];
      assert order[n] !in order[..n];
      DistinctSize(order[..n], clients - {order[n]});
    } else {
      assert clients == {};
    }
  }

  lemma AllWritten(bytes: seq<Byte>, vector: map<nat, nat>, order: seq<nat>)
    requires Lists(order, vector) && bytes == EncodeVarUint(|vector|) + Entries(order, vector)
    ensures Encodes(bytes, vector)
  {
    DistinctSize(order, vector.Keys);
    assert |vector| == |vector.Keys|;
    hide Entries, EncodeVarUint, Lists;
    assert IsEncoding(bytes, vector, order);
  }

  lemma EntryWritten(bytes: seq<Byte>, client: nat, clock: nat)
    ensures bytes + EncodeVarUint(client) + EncodeVarUint(clock) == bytes + Entry(client, clock)
  {
  }

  method WriteEntry(writer: Writer, client: nat, clock: nat)
    modifies writer
    ensures writer.bytes == old(writer.bytes) + Entry(client, clock)
  {
    EntryWritten(writer.bytes, client, clock);
    hide *;
    writer.VarUint(client);
    writer.VarUint(clock);
  }

  /** The entries in whatever order the map yields them. */
  method EncodeVector(vector: map<nat, nat>) returns (bytes: seq<Byte>)
    ensures Encodes(bytes, vector)
  {
    var writer := new Writer();
    writer.VarUint(|vector|);
    ghost var order: seq<nat> := [];
    var left := vector.Keys;
    assert Entries(order, vector) == [];
    hide Entry, Entries, EncodeVarUint, Encodes;
    while left != {}
      invariant left <= vector.Keys && NoDuplicates(order) && forall c :: c in order <==> c in vector && c !in left
      invariant writer.bytes == EncodeVarUint(|vector|) + Entries(order, vector)
      decreases left
    {
      var client :| client in left;
      EntriesGrow(order, vector, client);
      WriteEntry(writer, client, vector[client]);
      order := order + [client];
      left := left - {client};
    }
    bytes := writer.bytes;
    AllWritten(bytes, vector, order);
  }

  // ----- merging -----

  /** The larger clock for every client. */
  function Merged(a: map<nat, nat>, b: map<nat, nat>): map<nat, nat>
  {
    map c | c in a.Keys + b.Keys && (c in a || b[c] > 0) :: if ClockOf(a, c) < ClockOf(b, c) then ClockOf(b, c) else ClockOf(a, c)
  }

  lemma MergedIsMax(a: map<nat, nat>, b: map<nat, nat>, client: nat)
    ensures ClockOf(a, client) <= ClockOf(Merged(a, b), client) && ClockOf(b, client) <= ClockOf(Merged(a, b), client)
    ensures ClockOf(Merged(a, b), client) in {ClockOf(a, client), ClockOf(b, client)}
    ensures client in Merged(a, b) <==> client in a || ClockOf(b, client) > 0
  {
  }

  /** Comparing and storing one entry of `b` brings it into the merge. */
  lemma MergeOne(a: map<nat, nat>, b: map<nat, nat>, left: set<nat>, client: nat)
    requires left <= b.Keys && client in left
    ensures var merged := Merged(a, b - left);
      Merged(a, b - (left - {client})) == if b[client] > ClockOf(merged, client) then merged[client := b[client]] else merged
  {
    var before, after := b - left, b - (left - {client});
    assert after == before[client := b[client]];
    assert client !in before;
  }

  /** Nothing if either is malformed; otherwise a vector that decodes to the maximum of the two. */
  method MergeStateVectors(a: seq<Byte>, b: seq<Byte>) returns (r: Option<seq<Byte>>)
    ensures r.Some? <==> DecodeVector(a).Some? && DecodeVector(b).Some?
    ensures r.Some? ==> Encodes(r.value, Merged(DecodeVector(a).value, DecodeVector(b).value))
  {
    if DecodeVector(a).None? || DecodeVector(b).None? { return None; }
    var merged, other := DecodeVector(a).value, DecodeVector(b).value;
    ghost var mine := merged;
    var left := other.Keys;
    assert Merged(mine, other - left) == mine;
    hide Merged, ClockOf, DecodeVector, Encodes;
    while left != {}
      invariant left <= other.Keys
      invariant merged == Merged(mine, other - left)
      decreases left
    {
      var client :| client in left;
      MergeOne(mine, other, left, client);
      if other[client] > ClockOf(merged, client) {
        merged := merged[client := other[client]];
      }
      left := left - {client};
    }
    assert other - {} == other;
    var bytes := EncodeVector(merged);
    r := Some(bytes);
  }

  // ----- the persisted clock, from the writer to a client -----

  const MESSAGE_PERSISTED := 2

  function PersistedMessage(vector: seq<Byte>): (r: seq<Byte>)
    ensures r != [] && r[0] == 2
  {
    EncodeVarUint(MESSAGE_PERSISTED) + Delimited(vector)
  }

  /** What a room has announced as durable, and the message it last sent about it. */
  class PersistedVector {
    var persistedVector: seq<Byte>

    ghost function Clocks(): map<nat, nat>
      reads this
    {
      var v := DecodeVector(persistedVector);
      if v.Some? then v.value else map[]
    }

    ghost predicate Valid()
      reads this
    {
      Encodes(persistedVector, Clocks())
    }

    /** Starts from the vector of an empty document. */
    constructor ()
      ensures Valid() && Clocks() == map[]
    {
      persistedVector := EncodeVarUint(0);
      new;
      assert IsEncoding(persistedVector, map[], []) by { assert EncodeVarUint(0) + Entries([], map[]) == EncodeVarUint(0); }
      EncodesDecodes(persistedVector, map[]);
    }

    /** The board was loaded: what storage holds is durable. */
    method StartFrom(loaded: map<nat, nat>)
      modifies this
      ensures Valid() && Clocks() == loaded
    {
      var bytes := EncodeVector(loaded);
      EncodesDecodes(bytes, loaded);
      hide DecodeVector, Encodes;
      persistedVector := bytes;
    }

    /** Adds what a writer committed and tells the clients; a malformed vector throws and changes nothing. */
    method MarkPersisted(stateVector: seq<Byte>) returns (message: Option<seq<Byte>>)
      requires Valid()
      modifies this
      ensures Valid()
      ensures match DecodeVector(stateVector)
        case None => message == None && persistedVector == old(persistedVector)
        case Some(v) => Clocks() == Merged(old(Clocks()), v) && message == Some(PersistedMessage(persistedVector))
    {
      EncodesDecodes(persistedVector, Clocks());
      hide Merged, DecodeVector, Encodes;
      var merged := MergeStateVectors(persistedVector, stateVector);
      if merged.None? { return None; }
      EncodesDecodes(merged.value, Merged(Clocks(), DecodeVector(stateVector).value));
      persistedVector := merged.value;
      message := Some(PersistedMessage(persistedVector));
    }
  }

  datatype Answer = Truncated | OtherMessage | Clock(clock: nat)

  function FindClock(bytes: seq<Byte>, count: nat, client: nat): Answer
    decreases count
  {
    if count == 0 then Clock(0)
    else
      match TakeEntry(bytes)
      case None => Truncated
      case Some(t) => if t.value.0 == client then Clock(t.value.1) else FindClock(t.rest, count - 1, client)
  }

  function ReadPersisted(message: seq<Byte>, client: nat): Answer
  {
    match DecodeVarUint(message)
    case None => Truncated
    case Some(kind) =>
      if kind.value != MESSAGE_PERSISTED then OtherMessage
      else
        match TakeBytes(kind.rest)
        case None => Truncated
        case Some(vector) =>
          match DecodeVarUint(vector.value)
          case None => Truncated
          case Some(count) => FindClock(count.rest, count.value, client)
  }

  /** What is left after `k` entries. */
  function Skip(bytes: seq<Byte>, k: nat): Option<seq<Byte>>
    decreases k
  {
    if k == 0 then Some(bytes)
    else
      match TakeEntry(bytes)
      case None => None
      case Some(t) => Skip(t.rest, k - 1)
  }

  /** The `k`-th entry. */
  function EntryNo(bytes: seq<Byte>, k: nat): Option<(nat, nat)>
  {
    match Skip(bytes, k)
    case None => None
    case Some(rest) =>
      match TakeEntry(rest)
      case None => None
      case Some(t) => Some(t.value)
  }

  /** The first `k` entries can be read and are about other clients. */
  ghost predicate OthersFirst(bytes: seq<Byte>, k: nat, client: nat)
  {
    forall j | 0 <= j < k :: EntryNo(bytes, j).Some? && EntryNo(bytes, j).value.0 != client
  }

  /** The clock of the first entry for the client, 0 if there is none; or the bytes end before such an entry. */
  ghost predicate IsFirstClock(bytes: seq<Byte>, count: nat, client: nat, r: Answer)
  {
    match r
    case OtherMessage => false
    case Truncated => exists k: nat :: k < count && OthersFirst(bytes, k, client) && EntryNo(bytes, k) == None
    case Clock(clock) =>
      || (clock == 0 && OthersFirst(bytes, count, client))
      || exists k: nat :: k < count && OthersFirst(bytes, k, client) && EntryNo(bytes, k) == Some((client, clock))
  }

  lemma OneMoreSkipped(bytes: seq<Byte>, k: nat, client: nat)
    requires TakeEntry(bytes).Some? && TakeEntry(bytes).value.value.0 != client
    ensures EntryNo(bytes, k + 1) == EntryNo(TakeEntry(bytes).value.rest, k)
    ensures OthersFirst(TakeEntry(bytes).value.rest, k, client) ==> OthersFirst(bytes, k + 1, client)
  {
    var rest := TakeEntry(bytes).value.rest;
    assert EntryNo(bytes, 0) == Some(TakeEntry(bytes).value.value);
    assert forall j: nat :: EntryNo(bytes, j + 1) == EntryNo(rest, j);
    hide EntryNo, TakeEntry;
    assert forall j: nat | j > 0 :: EntryNo(bytes, j) == EntryNo(rest, j - 1) by {
      forall j: nat | j > 0 ensures EntryNo(bytes, j) == EntryNo(rest, j - 1) { assert EntryNo(bytes, j - 1 + 1) == EntryNo(rest, j - 1); }
    }
  }

  lemma {:induction false} FindsFirst(bytes: seq<Byte>, count: nat, client: nat)
    ensures IsFirstClock(bytes, count, client, FindClock(bytes, count, client))
    decreases count
  {
    assert OthersFirst(bytes, 0, client);
    if count > 0 {
      var first := TakeEntry(bytes);
      assert EntryNo(bytes, 0) == if first == None then None else Some(first.value.value);
      if first.Some? && first.value.value.0 != client {
        var rest := first.value.rest;
        FindsFirst(rest, count - 1, client);
        forall k: nat
          ensures EntryNo(bytes, k + 1) == EntryNo(rest, k)
          ensures OthersFirst(rest, k, client) ==> OthersFirst(bytes, k + 1, client)
        {
          OneMoreSkipped(bytes, k, client);
        }
        hide EntryNo, OthersFirst, TakeEntry;
      }
    }
  }

  /** Only a message of kind 2 is taken for a persisted one. */
  lemma OnlyKindTwoIsRead(message: seq<Byte>, client: nat)
    ensures ReadPersisted(message, client) == OtherMessage <==>
            DecodeVarUint(message).Some? && DecodeVarUint(message).value.value != 2
  {
    if DecodeVarUint(message).Some? && DecodeVarUint(message).value.value == 2 {
      NeverOther(message, client);
    }
    hide DecodeVarUint, TakeBytes, FindClock;
  }

  /** A message of kind 2 is read for the first entry of the client; what follows its vector does not matter. */
  lemma ReadsFirstClock(client: nat, count: nat, entries: seq<Byte>, tail: seq<Byte>)
    ensures var message := EncodeVarUint(2) + (Delimited(EncodeVarUint(count) + entries) + tail);
      IsFirstClock(entries, count, client, ReadPersisted(message, client))
  {
    hide DecodeVarUint, EncodeVarUint, FindClock, IsFirstClock;
    var vector := EncodeVarUint(count) + entries;
    VarUintRoundTrip(2, Delimited(vector) + tail);
    VarUintRoundTrip(count, entries);
    DelimitedIsTaken(vector, tail);
    FindsFirst(entries, count, client);
    hide TakeBytes, Delimited;
  }

  lemma DelimitedIsTaken(value: seq<Byte>, tail: seq<Byte>)
    ensures TakeBytes(Delimited(value) + tail) == Some(Taken(value, tail))
  {
    hide DecodeVarUint, EncodeVarUint;
    assert Delimited(value) + tail == EncodeVarUint(|value|) + (value + tail);
    VarUintRoundTrip(|value|, value + tail);
    assert (value + tail)[..|value|] == value;
    assert (value + tail)[|value|..] == tail;
  }

  lemma NeverOther(message: seq<Byte>, client: nat)
    requires DecodeVarUint(message).Some? && DecodeVarUint(message).value.value == 2
    ensures ReadPersisted(message, client) != OtherMessage
  {
    hide DecodeVarUint, TakeEntry;
    var inner := TakeBytes(DecodeVarUint(message).value.rest);
    if inner.Some? && DecodeVarUint(inner.value.value).Some? {
      var count := DecodeVarUint(inner.value.value).value;
      FindsFirst(count.rest, count.value, client);
      hide FindClock;
    }
  }

  /** Reads entries up to the client's. */
  method SearchEntries(vector: Reader, count: nat, clientId: nat) returns (r: Answer)
    modifies vector
    ensures r == FindClock(old(vector.Rest()), count, clientId)
  {
    hide DecodeVarUint;
    for i := 0 to count
      invariant FindClock(vector.Rest(), count - i, clientId) == FindClock(old(vector.Rest()), count, clientId)
    {
      var client := vector.VarUint();
      if client.None? { return Truncated; }
      var clock := vector.VarUint();
      if clock.None? { return Truncated; }
      if client.value == clientId { return Clock(clock.value); }
    }
    return Clock(0);
  }

  /** The first entry for the client; an error is thrown where the answer is that the bytes end too early. */
  method PersistedClock(bytes: seq<Byte>, clientId: nat) returns (r: Answer)
    ensures r == ReadPersisted(bytes, clientId)
  {
    var reader := new Reader(bytes);
    assert reader.Rest() == bytes;
    hide DecodeVarUint, TakeBytes;
    var kind := reader.VarUint();
    if kind.None? { return Truncated; }
    if kind.value != MESSAGE_PERSISTED { return OtherMessage; }
    var inner := reader.VarBytes();
    if inner.None? { return Truncated; }
    var vector := new Reader(inner.value);
    assert vector.Rest() == inner.value;
    var count := vector.VarUint();
    if count.None? { return Truncated; }
    r := SearchEntries(vector, count.value, clientId);
  }

  lemma {:induction false} FindsClock(order: seq<nat>, vector: map<nat, nat>, client: nat)
    ensures FindClock(Entries(order, vector), |order|, client) == Clock(if client in order then ClockOf(vector, client) else 0)
  {
    if order != [] {
      EntryRoundTrip(order[0], ClockOf(vector, order[0]), Entries(order[1..], vector));
      FindsClock(order[1..], vector, client);
      hide TakeEntry, Entry;
    }
  }

  /** A client reads from a persisted message its clock in the vector sent, 0 if it is not there. */
  lemma PersistedRoundTrip(bytes: seq<Byte>, vector: map<nat, nat>, client: nat)
    requires Encodes(bytes, vector)
    ensures ReadPersisted(PersistedMessage(bytes), client) == Clock(ClockOf(vector, client))
  {
    var order :| IsEncoding(bytes, vector, order);
    var entries := Entries(order, vector);
    VarUintRoundTrip(MESSAGE_PERSISTED, Delimited(bytes));
    VarUintRoundTrip(|bytes|, bytes);
    VarUintRoundTrip(|order|, entries);
    FindsClock(order, vector, client);
    hide DecodeVarUint, EncodeVarUint, Entries, FindClock;
    assert bytes[..|bytes|] == bytes;
  }

  /** The vector a room holds after a sequence of announcements. */
  function Announced(start: map<nat, nat>, vectors: seq<map<nat, nat>>): map<nat, nat>
  {
    if vectors == [] then start else Merged(Announced(start, vectors[..|vectors| - 1]), vectors[|vectors| - 1])
  }

  /** `clock` is the largest of the starting clock and those announced for the client. */
  ghost predicate IsLatest(start: map<nat, nat>, vectors: seq<map<nat, nat>>, client: nat, clock: nat)
  {
    && ClockOf(start, client) <= clock
    && (forall v | v in vectors :: ClockOf(v, client) <= clock)
    && (clock == ClockOf(start, client) || exists v | v in vectors :: ClockOf(v, client) == clock)
  }

  lemma LatestOfMore(start: map<nat, nat>, vectors: seq<map<nat, nat>>, last: map<nat, nat>, client: nat, before: nat, clock: nat)
    requires IsLatest(start, vectors, client, before) && before <= clock && ClockOf(last, client) <= clock
    requires clock == before || clock == ClockOf(last, client)
    ensures IsLatest(start, vectors + [last], client, clock)
  {
    hide ClockOf;
    if clock == ClockOf(last, client) {
      assert last in vectors + [last];
    } else if clock != ClockOf(start, client) {
      var v :| v in vectors && ClockOf(v, client) == before;
      assert v in vectors + [last];
    }
  }

  lemma {:induction false} AnnouncedIsLatest(start: map<nat, nat>, vectors: seq<map<nat, nat>>, client: nat)
    ensures IsLatest(start, vectors, client, ClockOf(Announced(start, vectors), client))
  {
    if vectors != [] {
      var front, last := vectors[..|vectors| - 1], vectors[|vectors| - 1];
      AnnouncedIsLatest(start, front, client);
      MergedIsMax(Announced(start, front), last, client);
      assert vectors == front + [last];
      hide Merged, ClockOf, IsLatest;
      LatestOfMore(start, front, last, client, ClockOf(Announced(start, front), client), ClockOf(Announced(start, vectors), client));
    }
  }

  /** From the announcements to the client: it reads the latest clock announced for it, whatever order the map had. */
  lemma ClientReadsLatest(start: map<nat, nat>, vectors: seq<map<nat, nat>>, bytes: seq<Byte>, client: nat)
    requires Encodes(bytes, Announced(start, vectors))
    ensures var r := ReadPersisted(PersistedMessage(bytes), client); r.Clock? && IsLatest(start, vectors, client, r.clock)
  {
    PersistedRoundTrip(bytes, Announced(start, vectors), client);
    AnnouncedIsLatest(start, vectors, client);
    hide IsLatest, ReadPersisted, Announced;
  }
}
