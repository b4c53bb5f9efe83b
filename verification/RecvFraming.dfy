/** The receiving side of a TCP connection: bytes that arrive in pieces of any size are framed into
    messages.  A read fills the current fragment and puts what is left into a cache, and a payload
    that lies in the cache as a whole is handed out in place. */
module Receiving {
  import opened Common

  const HDR_SIZE: nat := 8
  const TYPE_SEND: nat := 1
  const TYPE_PUT: nat := 2

  /** Header: tag, type, count (two bytes) and size (four bytes), in network or in host order. */
  function Size(hdr: seq<Byte>, nbo: bool): nat
    requires |hdr| == HDR_SIZE
  {
    if nbo then Word(hdr[4], hdr[5], hdr[6], hdr[7]) else Word(hdr[7], hdr[6], hdr[5], hdr[4])
  }

  function Word(a: int, b: int, c: int, d: int): int {
    ((a * 256 + b) * 256 + c) * 256 + d
  }

  /** The number of bytes that follow a header. */
  function Need(hdr: seq<Byte>, nbo: bool): nat
    requires |hdr| == HDR_SIZE
  {
    if hdr[1] == TYPE_SEND then Size(hdr, nbo) else 0
  }

  datatype Message = Message(hdr: seq<Byte>, payload: seq<Byte>)

  /** What the upper layer gets: the tag and the bytes of the fragment's segment. */
  datatype Delivered = Delivered(tag: Byte, bytes: seq<Byte>)

  /** The stream begins with a complete message. */
  predicate Complete(b: seq<Byte>, nbo: bool) {
    |b| >= HDR_SIZE && |b| >= HDR_SIZE + Need(b[..HDR_SIZE], nbo)
  }

  /** The complete messages at the start of a stream, and what remains. */
  datatype Parsed = Parsed(messages: seq<Message>, rest: seq<Byte>)

  function Parse(b: seq<Byte>, nbo: bool): Parsed {
    if !Complete(b, nbo) then Parsed([], b)
    else
      var n := HDR_SIZE + Need(b[..HDR_SIZE], nbo);
      var p := Parse(b[n..], nbo);
      Parsed([Message(b[..HDR_SIZE], b[HDR_SIZE..n])] + p.messages, p.rest)
  }

  // ---------------------------------------------------------------- what the sending side writes

  /** A number below 2^32 as four bytes, the most significant one first. */
  function Bytes4(n: nat): (r: seq<Byte>)
    requires n < 0x1_0000_0000
    ensures |r| == 4
  {
    var a := n / 0x100;
    var b := a / 0x100;
    [b / 0x100, b % 0x100, a % 0x100, n % 0x100]
  }

  /** The header of a SEND message as it lies in memory: the size is converted to network order if the two sides do not
      have the same one; otherwise its least significant byte comes first. */
  function Header(tag: Byte, size: nat, nbo: bool): (r: seq<Byte>)
    requires size < 0x1_0000_0000
    ensures |r| == HDR_SIZE && r[0] == tag && r[1] == TYPE_SEND
  {
    var b := Bytes4(size);
    [tag, TYPE_SEND, 0, 0] + if nbo then b else [b[3], b[2], b[1], b[0]]
  }

  /** What is sent: a tag and a payload. */
  datatype Sent = Sent(tag: Byte, payload: seq<Byte>) {
    predicate Fits() {
      |payload| < 0x1_0000_0000
    }

    function Hdr(nbo: bool): (r: seq<Byte>)
      requires Fits()
      ensures |r| == HDR_SIZE
    {
      Header(tag, |payload|, nbo)
    }
  }

  predicate AllFit(sent: seq<Sent>) {
    forall i :: 0 <= i < |sent| ==> sent[i].Fits()
  }

  /** The bytes of messages that are sent one after the other. */
  function Stream(sent: seq<Sent>, nbo: bool): seq<Byte>
    requires AllFit(sent)
  {
    if sent == [] then [] else sent[0].Hdr(nbo) + sent[0].payload + Stream(sent[1..], nbo)
  }

  /** The messages of a stream. */
  function Messages(sent: seq<Sent>, nbo: bool): (r: seq<Message>)
    requires AllFit(sent)
    ensures |r| == |sent|
  {
    if sent == [] then [] else [Message(sent[0].Hdr(nbo), sent[0].payload)] + Messages(sent[1..], nbo)
  }

  lemma WordOfBytes(n: nat)
    requires n < 0x1_0000_0000
    ensures var b := Bytes4(n); Word(b[0], b[1], b[2], b[3]) == n
  {
  }

  /** Reading the size from a header gives the size that was written into it, in either order. */
  lemma SizeOfHeader(tag: Byte, size: nat, nbo: bool)
    requires size < 0x1_0000_0000
    ensures Size(Header(tag, size, nbo), nbo) == size && Need(Header(tag, size, nbo), nbo) == size
  {
    hide Bytes4, Word;
    WordOfBytes(size);
  }

  /** What is sent is parsed into the same messages, and nothing is left over. */
  lemma {:induction false} ParseStream(sent: seq<Sent>, nbo: bool)
    requires AllFit(sent)
    ensures Parse(Stream(sent, nbo), nbo) == Parsed(Messages(sent, nbo), []) && NoPut(Stream(sent, nbo), nbo)
  {
    if sent != [] {
      var m, rest := sent[0], Stream(sent[1..], nbo);
      ParseStream(sent[1..], nbo);
      SizeOfHeader(m.tag, |m.payload|, nbo);
      ParseFirst(m.Hdr(nbo), m.payload, rest, nbo);
      NoPutFirst(m, rest, nbo);
    }
  }

  lemma NoPutFirst(m: Sent, rest: seq<Byte>, nbo: bool)
    requires m.Fits() && NoPut(rest, nbo)
    ensures NoPut(m.Hdr(nbo) + m.payload + rest, nbo)
  {
    SizeOfHeader(m.tag, |m.payload|, nbo);
    hide Need, Header;
    var b := m.Hdr(nbo) + m.payload + rest;
    assert b[..HDR_SIZE] == m.Hdr(nbo) && b[1] == m.Hdr(nbo)[1] == TYPE_SEND && b[HDR_SIZE + |m.payload|..] == rest;
  }

  /** A call hands out what was sent. */
  predicate HandsOut(d: Delivered, m: Sent) {
    d.tag == m.tag && (m.payload != [] ==> d.bytes == m.payload)
  }

  /** Calls that carry the messages of a stream hand out what was sent, with the tags it was sent with. */
  lemma {:induction false} CarrySent(calls: seq<Delivered>, sent: seq<Sent>, nbo: bool)
    requires AllFit(sent) && Carry(calls, Messages(sent, nbo))
    ensures |calls| == |sent| && forall i :: 0 <= i < |sent| ==> HandsOut(calls[i], sent[i])
  {
    if sent == [] {
      assert Messages(sent, nbo) == [];
    } else {
      var n := |sent| - 1;
      var m := sent[n];
      MessagesLast(sent, nbo);
      var before, more := CarryLast(calls, Messages(sent, nbo));
      hide Carry, HandsOut, Messages, IsSend, Carries, Header, Sent.Hdr;
      assert Messages(sent, nbo)[..n] == Messages(sent[..n], nbo);
      CarrySent(before, sent[..n], nbo);
      IsSent(m, nbo);
      LastHandsOut(more[0], m, nbo);
      forall i | 0 <= i < |sent|
        ensures HandsOut(calls[i], sent[i])
      {
        if i < n {
          assert HandsOut(before[i], sent[..n][i]);
        }
      }
    }
  }

  lemma IsSent(m: Sent, nbo: bool)
    requires m.Fits()
    ensures IsSend(Message(m.Hdr(nbo), m.payload))
  {
  }

  lemma LastHandsOut(d: Delivered, m: Sent, nbo: bool)
    requires m.Fits() && IsSend(Message(m.Hdr(nbo), m.payload)) && Carries(d, Message(m.Hdr(nbo), m.payload))
    ensures HandsOut(d, m)
  {
  }

  lemma {:induction false} MessagesLast(sent: seq<Sent>, nbo: bool)
    requires AllFit(sent) && sent != []
    ensures var n := |sent| - 1;
      Messages(sent, nbo) == Messages(sent[..n], nbo) + [Message(sent[n].Hdr(nbo), sent[n].payload)]
  {
    var n := |sent| - 1;
    if n > 0 {
      assert sent[1..][..n - 1] == sent[..n][1..] && sent[1..][n - 1] == sent[n];
      MessagesLast(sent[1..], nbo);
    }
  }

  /** A stream without PUT messages. */
  ghost predicate NoPut(b: seq<Byte>, nbo: bool) {
    || |b| < HDR_SIZE
    || (b[1] != TYPE_PUT && (Complete(b, nbo) ==> NoPut(b[HDR_SIZE + Need(b[..HDR_SIZE], nbo)..], nbo)))
  }

  predicate IsSend(m: Message) {
    |m.hdr| == HDR_SIZE && m.hdr[1] == TYPE_SEND
  }

  /** The upper layer has been called once for each SEND message, in order, with its tag and its payload.  An empty
      message has no payload to go with; what it comes with is said where it is handed out. */
  ghost predicate Carry(calls: seq<Delivered>, ms: seq<Message>) {
    if ms == [] then calls == []
    else
      var m := ms[|ms| - 1];
      if IsSend(m) then calls != [] && Carries(calls[|calls| - 1], m) && Carry(calls[..|calls| - 1], ms[..|ms| - 1])
      else Carry(calls, ms[..|ms| - 1])
  }

  predicate Carries(d: Delivered, m: Message)
    requires IsSend(m)
  {
    d.tag == m.hdr[0] && (m.payload != [] ==> d.bytes == m.payload)
  }

  lemma ParseStep(b: seq<Byte>, nbo: bool)
    ensures !Complete(b, nbo) ==> Parse(b, nbo) == Parsed([], b)
    ensures Complete(b, nbo) ==>
      var n := HDR_SIZE + Need(b[..HDR_SIZE], nbo);
      && Parse(b, nbo).messages == [Message(b[..HDR_SIZE], b[HDR_SIZE..n])] + Parse(b[n..], nbo).messages
      && Parse(b, nbo).rest == Parse(b[n..], nbo).rest
  {
    hide Need, Complete;
  }

  /** Bytes that arrive later only add messages. */
  lemma {:induction false} ParseMore(a: seq<Byte>, b: seq<Byte>, nbo: bool)
    ensures Parse(a + b, nbo).messages == Parse(a, nbo).messages + Parse(Parse(a, nbo).rest + b, nbo).messages
    ensures Parse(a + b, nbo).rest == Parse(Parse(a, nbo).rest + b, nbo).rest
    decreases |a|
  {
    hide Need, Parse;
    ParseStep(a, nbo);
    if Complete(a, nbo) {
      var n := HDR_SIZE + Need(a[..HDR_SIZE], nbo);
      ParseMore(a[n..], b, nbo);
      assert (a + b)[..HDR_SIZE] == a[..HDR_SIZE];
      assert (a + b)[HDR_SIZE..n] == a[HDR_SIZE..n] && (a + b)[n..] == a[n..] + b;
      ParseStep(a + b, nbo);
    }
  }

  lemma ParseFirst(hdr: seq<Byte>, payload: seq<Byte>, b: seq<Byte>, nbo: bool)
    requires |hdr| == HDR_SIZE && |payload| == Need(hdr, nbo)
    ensures Parse(hdr + payload + b, nbo).messages == [Message(hdr, payload)] + Parse(b, nbo).messages
    ensures Parse(hdr + payload + b, nbo).rest == Parse(b, nbo).rest
  {
    hide Need, Parse;
    var s := hdr + payload + b;
    assert s[..HDR_SIZE] == hdr && s[HDR_SIZE..HDR_SIZE + |payload|] == payload && s[HDR_SIZE + |payload|..] == b;
    ParseStep(s, nbo);
  }

  lemma CarryMore(calls: seq<Delivered>, ms: seq<Message>, m: Message, more: seq<Delivered>)
    requires Carry(calls, ms) && if IsSend(m) then |more| == 1 && Carries(more[0], m) else more == []
    ensures Carry(calls + more, ms + [m])
  {
    assert (ms + [m])[..|ms|] == ms;
    if IsSend(m) {
      assert (calls + more)[..|calls|] == calls;
    } else {
      assert calls + more == calls;
    }
  }

  /** The last message, and the call for it if there is one. */
  lemma CarryLast(calls: seq<Delivered>, ms: seq<Message>) returns (before: seq<Delivered>, more: seq<Delivered>)
    requires Carry(calls, ms) && ms != []
    ensures Carry(before, ms[..|ms| - 1]) && calls == before + more
    ensures var m := ms[|ms| - 1]; if IsSend(m) then |more| == 1 && Carries(more[0], m) else more == []
  {
    hide IsSend, Carries;
    before, more := calls, [];
    if IsSend(ms[|ms| - 1]) {
      before, more := calls[..|calls| - 1], calls[|calls| - 1..];
    }
  }

  lemma {:induction false} CarryConcat(a: seq<Delivered>, ms: seq<Message>, b: seq<Delivered>, ns: seq<Message>)
    requires Carry(a, ms) && Carry(b, ns)
    ensures Carry(a + b, ms + ns)
    decreases |ns|
  {
    if ns == [] {
      assert a + b == a && ms + ns == ms;
    } else {
      hide Carry, IsSend, Carries;
      var m, n := ns[|ns| - 1], |ns| - 1;
      var before, more := CarryLast(b, ns);
      CarryConcat(a, ms, before, ns[..n]);
      CarryMore(a + before, ms + ns[..n], m, more);
      Assoc(a, before, more);
      assert ms + ns[..n] + [m] == ms + ns;
    }
  }

  lemma Assoc<T>(a: seq<T>, b: seq<T>, c: seq<T>)
    ensures a + (b + c) == a + b + c
  {
  }

  lemma Regroup(p: seq<Byte>, g: seq<Byte>, r: seq<Byte>, c: seq<Byte>, a: seq<Byte>)
    requires g + r == c + a
    ensures p + g + r == p + c + a
  {
    assert p + g + r == p + (g + r) && p + c + a == p + (c + a);
  }

  lemma Assemble(h: seq<Byte>, d: seq<Byte>, g: seq<Byte>, n: nat, c: seq<Byte>, p: seq<Byte>)
    requires n <= |g| && g[n..] == c && p == d + g[..n]
    ensures h + d + g == h + p + c
  {
    assert g == g[..n] + c;
  }

  lemma NotComplete(hdr: seq<Byte>, data: seq<Byte>, nbo: bool)
    requires |hdr| == HDR_SIZE && |data| < Need(hdr, nbo)
    ensures !Complete(hdr + data, nbo)
  {
    hide Need;
    assert (hdr + data)[..HDR_SIZE] == hdr;
  }

  /** Where the segment of a fragment is: in the fragment itself, in the cache, or in memory that it was used for
      before. */
  datatype Segment = Buffer(length: nat) | InCache(pos: nat, length: nat) | Elsewhere(bytes: seq<Byte>)

  /** The reads that are still to come after some reads. */
  ghost predicate Later(portions: seq<nat>, later: seq<nat>) {
    |later| <= |portions| && later == portions[|portions| - |later|..]
  }

  lemma NoneRead(portions: seq<nat>)
    ensures Later(portions, portions)
  {
  }

  lemma LaterStill(a: seq<nat>, b: seq<nat>, c: seq<nat>)
    requires Later(a, b) && Later(b, c)
    ensures Later(a, c)
  {
  }

  class Receiver {
    const nbo: bool
    const cache: array<Byte>
    var cachePos: nat
    var cacheLength: nat
    var busy: bool
    var index: nat
    var left: nat
    var hdr: seq<Byte>
    var data: seq<Byte>
    /** The fragment's own buffer as far as it has been used, with `data` at its beginning. */
    var store: seq<Byte>
    var segment: Segment
    var delivered: seq<Delivered>
    /** How many bytes the coming reads find at most; when there are none left, a read finds all that has arrived. */
    var portions: seq<nat>

    constructor (cacheSize: nat, nbo: bool, portions: seq<nat>)
      requires cacheSize > 0
      ensures Valid() && fresh(cache) && cache.Length == cacheSize && cacheLength == 0 && cachePos == 0
      ensures !busy && hdr == [] && delivered == [] && this.nbo == nbo && this.portions == portions
    {
      this.nbo := nbo;
      cache := new Byte[cacheSize];
      cachePos, cacheLength := 0, 0;
      busy, index, left, hdr, data, store, segment := false, 0, HDR_SIZE, [], [], [], Elsewhere([]);
      delivered, this.portions := [], portions;
    }

    ghost predicate Caches()
      reads this
    {
      cachePos + cacheLength <= cache.Length && (cacheLength == 0 ==> cachePos == 0) && cache.Length > 0
    }

    ghost predicate Valid()
      reads this
    {
      && Caches() && left > 0 && |data| <= |store| && store[..|data|] == data
      && (if index == 0 then |hdr| + left == HDR_SIZE && data == [] && Usable()
          else
            && index == 1 && |hdr| == HDR_SIZE && hdr[1] == TYPE_SEND
            && |data| + left == Size(hdr, nbo) && segment == Buffer(Size(hdr, nbo)))
      && (!busy ==> index == 0 && hdr == [])
    }

    /** The segment can be read. */
    ghost predicate Usable()
      reads this
    {
      match segment
      case Buffer(length) => length <= |store|
      case InCache(pos, length) => pos + length <= cache.Length
      case Elsewhere(_) => true
    }

    /** The bytes of the segment. */
    ghost function Content(): seq<Byte>
      reads this, cache
      requires Usable()
    {
      match segment
      case Buffer(length) => store[..length]
      case InCache(pos, length) => cache[pos..pos + length]
      case Elsewhere(bytes) => bytes
    }

    /** The bytes in the cache. */
    ghost function Cached(): seq<Byte>
      reads this, cache
      requires cachePos + cacheLength <= cache.Length
    {
      cache[cachePos..cachePos + cacheLength]
    }

    /** The bytes of the message that is not complete. */
    ghost function Partial(): seq<Byte>
      reads this
    {
      hdr + data
    }

    twostate lemma SameContent()
      requires segment == old(segment) && store == old(store) && cache[..] == old(cache[..]) && old(Usable())
      ensures Usable() && Content() == old(Content())
    {
      if segment.InCache? {
        assert cache[segment.pos..segment.pos + segment.length] == cache[..][segment.pos..segment.pos + segment.length];
      }
    }

    /** Puts bytes where the current vector points to. */
    method Put(bytes: seq<Byte>)
      requires |data| <= |store| && store[..|data|] == data
      modifies this`hdr, this`data, this`store
      ensures |data| <= |store| && store[..|data|] == data && |store| >= old(|store|)
      ensures
        if index == 0 then hdr == old(hdr) + bytes && data == old(data) && store == old(store)
        else data == old(data) + bytes && hdr == old(hdr)
    {
      if index == 0 {
        hdr := hdr + bytes;
      } else {
        data := data + bytes;
        store := data + if |store| > |data| then store[|data|..] else [];
      }
    }

    /** Fills the current vector from the cache. */
    method FillFromCache(dontCopy: bool) returns (full: bool)
      requires Valid() && cacheLength > 0 && (dontCopy ==> index == 1 && data == [])
      modifies this`hdr, this`data, this`store, this`segment, this`cachePos, this`cacheLength, this`left
      ensures Caches() && full == (old(cacheLength) >= old(left))
      ensures left == old(left) - (if full then old(left) else old(cacheLength))
      ensures full ==> Cached() == old(Cached())[old(left)..] && cacheLength == old(cacheLength) - old(left)
      ensures full && cacheLength > 0 ==> cachePos == old(cachePos) + old(left)
      ensures segment == if full && dontCopy then InCache(old(cachePos), old(left)) else old(segment)
      ensures (!full || index == 0 ==> segment == old(segment)) && (!full ==> cacheLength == 0)
      ensures index == 0 ==> store == old(store)
      ensures Filled(old(hdr), old(data), if full then old(Cached())[..old(left)] else old(Cached()))
    {
      hide Size;
      var length := if cacheLength > left then left else cacheLength;
      assert Cached()[..length] == cache[cachePos..cachePos + length];
      assert length == cacheLength ==> Cached()[..length] == Cached();
      if dontCopy && length == left {
        segment := InCache(cachePos, length);
      } else {
        Put(cache[cachePos..cachePos + length]);
      }
      full := Advance(length);
    }

    /** Goes on behind `length` bytes of the cache. */
    method Advance(length: nat) returns (full: bool)
      requires Caches() && length <= cacheLength && length <= left
      modifies this`cachePos, this`cacheLength, this`left
      ensures Caches() && cacheLength == old(cacheLength) - length && left == old(left) - length && full == (left == 0)
      ensures Cached() == old(Cached())[length..] && (cacheLength > 0 ==> cachePos == old(cachePos) + length)
    {
      assert Cached()[length..] == cache[cachePos + length..cachePos + cacheLength];
      cachePos := cachePos + length;
      cacheLength := cacheLength - length;
      if cacheLength == 0 {
        cachePos := 0;
      }
      left := left - length;
      full := left == 0;
    }

    /** The vector now holds `bytes` more, either copied or left in the cache. */
    ghost predicate Filled(hdr0: seq<Byte>, data0: seq<Byte>, bytes: seq<Byte>)
      reads this, cache
    {
      && |data| <= |store| && store[..|data|] == data
      && if index == 0 then hdr == hdr0 + bytes && data == data0 && Usable()
         else
           && hdr == hdr0 && |hdr| == HDR_SIZE
           && if segment.InCache? then Usable() && data0 == [] && Content() == bytes
              else segment == Buffer(Size(hdr, nbo)) && data == data0 + bytes
    }

    /** How many bytes the next read takes: what it finds, as far as the vector and the cache have room. */
    ghost function NextRead(available: seq<Byte>): nat
      reads this
    {
      Min(if portions == [] then |available| else Min(portions[0], |available|), left + cache.Length)
    }

    /** The next call takes at least what the first read takes, if nothing is cached. */
    ghost predicate Draws(available: seq<Byte>, rest: seq<Byte>)
      reads this
    {
      cacheLength == 0 ==> |rest| + NextRead(available) <= |available|
    }

    /** Reads from the socket into the current vector, and what is more than that into the cache.  How
        much comes is up to the network; nothing means that the call would block. */
    method FillFromSocket(available: seq<Byte>) returns (full: bool, rest: seq<Byte>, ghost cnt: nat)
      requires Valid() && cacheLength == 0
      modifies this`hdr, this`data, this`store, this`cacheLength, this`left, this`portions, cache
      ensures Caches() && cnt <= |available| && rest == available[cnt..]
      ensures full ==>
        && old(left) <= cnt && left == 0 && Cached() == available[old(left)..cnt]
        && Filled(old(hdr), old(data), available[..old(left)])
      ensures !full ==>
        cnt < old(left) && left == old(left) - cnt && cacheLength == 0 && Filled(old(hdr), old(data), available[..cnt])
      ensures (index == 0 ==> store == old(store)) && cnt == old(NextRead(available))
      ensures portions == if old(portions) == [] then [] else old(portions)[1..]
    {
      hide Size;
      var arrived := if portions == [] then |available| else Min(portions[0], |available|);
      var read := Min(arrived, left + cache.Length);
      portions := if portions == [] then [] else portions[1..];
      cnt := read;
      rest := available[read..];
      if read < left {
        Put(available[..read]);
        left := left - read;
        full := false;
      } else {
        Put(available[..left]);
        Keep(available[left..read]);
        left := 0;
        full := true;
      }
    }

    /** Puts bytes into the empty cache. */
    method Keep(bytes: seq<Byte>)
      requires Caches() && cacheLength == 0 && |bytes| <= cache.Length
      modifies this`cacheLength, cache
      ensures Caches() && Cached() == bytes
    {
      forall i | 0 <= i < |bytes| {
        cache[i] := bytes[i];
      }
      cacheLength := |bytes|;
    }

    method Fill(available: seq<Byte>, dontCopy: bool) returns (full: bool, rest: seq<Byte>, ghost all: seq<Byte>)
      requires Valid() && (dontCopy ==> index == 1 && data == [])
      modifies this`hdr, this`data, this`store, this`segment, this`cachePos, this`cacheLength, this`left,
        this`portions, cache
      ensures Caches() && all + rest == old(Cached()) + available && |rest| <= |available|
      ensures full ==>
        old(left) <= |all| && left == 0 && Cached() == all[old(left)..] && Filled(old(hdr), old(data), all[..old(left)])
      ensures !full ==>
        |all| < old(left) && left == old(left) - |all| && cacheLength == 0 && Filled(old(hdr), old(data), all)
      ensures !full || index == 0 ==> segment == old(segment)
      ensures (old(cacheLength) > 0 ==> cache[..] == old(cache[..])) && (index == 0 ==> store == old(store))
      ensures full && old(cacheLength) > 0 ==> cacheLength == old(cacheLength) - old(left)
      ensures full && old(cacheLength) > 0 && cacheLength > 0 ==> cachePos == old(cachePos) + old(left)
      ensures full && old(cacheLength) > 0 && dontCopy ==> segment == InCache(old(cachePos), old(left))
      ensures old(Draws(available, rest)) && Later(old(portions), portions)
    {
      if cacheLength != 0 {
        all := Cached();
        rest := available;
        full := FillFromCache(dontCopy);
        assert |all| == old(cacheLength);
      } else {
        ghost var cnt;
        full, rest, cnt := FillFromSocket(available);
        all := available[..cnt];
        assert full ==> all[old(left)..] == available[old(left)..cnt] && all[..old(left)] == available[..old(left)];
      }
    }

    /** The current fragment is a complete message. */
    ghost predicate Whole()
      reads this, cache
    {
      Caches() && |hdr| == HDR_SIZE && Usable() && (Need(hdr, nbo) > 0 ==> |Content()| == Need(hdr, nbo))
    }

    /** The payload of a complete fragment. */
    ghost function Payload(): seq<Byte>
      reads this, cache
      requires Whole()
    {
      if Need(hdr, nbo) > 0 then Content() else []
    }

    /** Goes on with the current fragment: header first, then payload. */
    method FragRecv(available: seq<Byte>) returns (complete: bool, rest: seq<Byte>, ghost all: seq<Byte>)
      requires Valid() && busy
      modifies this`hdr, this`data, this`store, this`segment, this`cachePos, this`cacheLength, this`left, this`index,
        this`portions,
        cache
      ensures all + rest == old(Partial()) + old(Cached()) + available && |rest| <= |available|
      ensures complete ==> Whole() && all == hdr + Payload() + Cached()
      ensures complete && Need(hdr, nbo) == 0 ==>
        segment == old(segment) && store == old(store) && (old(cacheLength) > 0 ==> cache[..] == old(cache[..]))
      ensures !complete ==> Valid() && cacheLength == 0 && all == Partial() && !Complete(all, nbo)
      ensures old(Draws(available, rest)) && Later(old(portions), portions)
      ensures complete && old(index) == 0 && Need(hdr, nbo) > 0 && old(cacheLength) >= old(left) + Need(hdr, nbo) ==>
        segment == InCache(old(cachePos) + old(left), Need(hdr, nbo))
    {
      hide Size, Content, Cached, Complete, Later;
      if index == 1 {
        complete, rest, all := PayloadRecv(available, false);
        return;
      }
      complete, rest, all := HeaderRecv(available);
      if !complete || hdr[1] != TYPE_SEND || Size(hdr, nbo) == 0 {
        assert complete ==> hdr + [] + Cached() == hdr + Cached();
        return;
      }
      BeginPayload();
      ghost var before := portions;
      complete, rest, all := PayloadRecv(rest, true);
      LaterStill(old(portions), before, portions);
    }

    /** The header of a message with a payload is complete: the next vector is for the payload. */
    method BeginPayload()
      requires Caches() && busy && index == 0 && data == [] && |hdr| == HDR_SIZE && hdr[1] == TYPE_SEND
      requires Size(hdr, nbo) > 0
      modifies this`index, this`left, this`segment
      ensures Valid() && index == 1 && left == Need(hdr, nbo) > 0 && Partial() == hdr && Cached() == old(Cached())
    {
      hide Size;
      index, left, segment := 1, Size(hdr, nbo), Buffer(Size(hdr, nbo));
    }

    method HeaderRecv(available: seq<Byte>) returns (full: bool, rest: seq<Byte>, ghost all: seq<Byte>)
      requires Valid() && busy && index == 0
      modifies this`hdr, this`data, this`store, this`segment, this`cachePos, this`cacheLength, this`left,
        this`portions, cache
      ensures all + rest == old(Partial()) + old(Cached()) + available && |rest| <= |available|
      ensures data == [] && segment == old(segment) && Caches() && Usable() && index == 0
      ensures store == old(store) && (old(cacheLength) > 0 ==> cache[..] == old(cache[..]))
      ensures full ==> |hdr| == HDR_SIZE && all == hdr + Cached()
      ensures !full ==> Valid() && cacheLength == 0 && all == hdr && !Complete(all, nbo)
      ensures old(Draws(available, rest)) && Later(old(portions), portions)
      ensures full && old(cacheLength) > old(left) ==>
        cacheLength == old(cacheLength) - old(left) && cachePos == old(cachePos) + old(left)
    {
      ghost var got;
      full, rest, got := Fill(available, false);
      all := old(hdr) + got;
      assert full ==> got == got[..old(left)] + got[old(left)..];
      assert all + rest == old(hdr) + (got + rest);
    }

    method PayloadRecv(available: seq<Byte>, dontCopy: bool) returns (full: bool, rest: seq<Byte>, ghost all: seq<Byte>)
      requires Valid() && busy && index == 1 && (dontCopy ==> data == [])
      modifies this`hdr, this`data, this`store, this`segment, this`cachePos, this`cacheLength, this`left,
        this`portions, cache
      ensures all + rest == old(Partial()) + old(Cached()) + available && |rest| <= |available|
      ensures full ==> Whole() && Need(hdr, nbo) > 0 && all == hdr + Payload() + Cached()
      ensures !full ==> Valid() && cacheLength == 0 && all == Partial() && !Complete(all, nbo)
      ensures old(Draws(available, rest)) && Later(old(portions), portions)
      ensures hdr == old(hdr)
      ensures dontCopy && old(cacheLength) >= old(left) ==> full && segment == InCache(old(cachePos), old(left))
    {
      hide Size, Complete, Draws, Later;
      ghost var got;
      full, rest, got := Fill(available, dontCopy);
      all := old(Partial()) + got;
      Regroup(old(Partial()), got, rest, old(Cached()), available);
      if full {
        assert Content() == old(data) + got[..old(left)];
        Assemble(hdr, old(data), got, old(left), Cached(), Payload());
      } else {
        Assemble(hdr, old(data), got, |got|, [], data);
        assert hdr + data + [] == hdr + data;
        NotComplete(hdr, data, nbo);
      }
    }

    /** Goes on with the current fragment, and hands it out if it is complete; the fragment is then
        prepared for the next message. */
    method NextMessage(available: seq<Byte>)
      returns (complete: bool, rest: seq<Byte>, ghost m: Message, ghost calls: seq<Delivered>)
      requires Valid() && busy
      modifies this, cache
      ensures Valid() && Caches() && |rest| <= |available| && (complete ==> busy == (cacheLength != 0))
      ensures delivered == old(delivered) + calls
      ensures complete ==> |m.hdr| == HDR_SIZE && |m.payload| == Need(m.hdr, nbo) && Partial() == []
      ensures complete ==> if IsSend(m) then |calls| == 1 && Carries(calls[0], m) else calls == []
      ensures complete ==> m.hdr + m.payload + (Cached() + rest) == old(Partial()) + old(Cached()) + available
      ensures !complete ==> cacheLength == 0 && Partial() + rest == old(Partial()) + old(Cached()) + available
      ensures !complete ==> !Complete(Partial(), nbo) && calls == []
      ensures complete && IsSend(m) ==> calls[0].bytes == Content()
      ensures complete && m.payload == [] && old(index == 0 && cacheLength > 0) ==> Content() == old(Content())
      ensures old(Draws(available, rest)) && Later(old(portions), portions)
    {
      hide Size, Complete, Need, IsSend, Carries, Content, Payload;
      m, calls := Message([], []), [];
      ghost var all;
      complete, rest, all := FragRecv(available);
      if complete {
        assert hdr + Payload() + (Cached() + rest) == all + rest;
        if Need(hdr, nbo) == 0 && old(index == 0 && cacheLength > 0) {
          SameContent();
        }
        m, calls := Deliver();
      }
    }

    /** Hands out a complete message, and prepares the fragment for the next one. */
    method Deliver() returns (ghost m: Message, ghost calls: seq<Delivered>)
      requires Whole()
      modifies this`delivered, this`busy, this`index, this`left, this`hdr, this`data
      ensures Valid() && Partial() == [] && busy == (cacheLength != 0) && Cached() == old(Cached())
      ensures m.hdr == old(hdr) && m.payload == old(Payload()) && |m.payload| == Need(m.hdr, nbo)
      ensures delivered == old(delivered) + calls
      ensures if IsSend(m) then |calls| == 1 && Carries(calls[0], m) && calls[0].bytes == Content() else calls == []
      ensures Content() == old(Content())
    {
      hide Size, Need, Carries, Content, IsSend;
      m, calls := HandOut();
      Renew();
      SameContent();
    }

    /** Calls the upper layer with a complete message.  The segment is the payload exactly if the payload is not empty;
        for an empty message it is what the fragment was last used for, unless that was nothing. */
    method HandOut() returns (ghost m: Message, ghost calls: seq<Delivered>)
      requires Whole()
      modifies this`delivered
      ensures m == Message(hdr, old(Payload())) && delivered == old(delivered) + calls
      ensures if IsSend(m) then calls == [Delivered(hdr[0], old(Content()))] && Carries(calls[0], m) else calls == []
      ensures IsSend(m) ==> (calls[0].bytes == m.payload <==> m.payload != [] || old(Content()) == [])
    {
      hide Size;
      m, calls := Message(hdr, Payload()), [];
      if hdr[1] == TYPE_SEND {
        var content;
        match segment {
          case Buffer(length) => content := store[..length];
          case InCache(pos, length) => content := cache[pos..pos + length];
          case Elsewhere(bytes) => content := bytes;
        }
        calls := [Delivered(hdr[0], content)];
        delivered := delivered + [Delivered(hdr[0], content)];
      }
    }

    /** The fragment is used for the next message as long as the cache is not empty.  Its segment is left as it is. */
    method Renew()
      requires Caches() && Usable()
      modifies this`busy, this`index, this`left, this`hdr, this`data
      ensures Valid() && Partial() == [] && busy == (cacheLength != 0)
    {
      index, left, hdr, data := 0, HDR_SIZE, [], [];
      busy := cacheLength != 0;
    }

    /** Takes a fragment from the free list unless one is in progress; nothing is known about its segment. */
    method Begin()
      requires Valid()
      modifies this`busy, this`store, this`segment
      ensures Valid() && Caches() && busy && (old(busy) ==> store == old(store) && segment == old(segment))
    {
      if !busy {
        var stale: seq<Byte> := *;
        store, segment := [], Elsewhere(stale);
      }
      busy := true;
    }

    /** The event handler: everything that one wake-up can read is framed and delivered, and nothing
        stays in the cache. */
    method RecvHandler(available: seq<Byte>)
      returns (rest: seq<Byte>, ghost taken: seq<Byte>, ghost calls: seq<Delivered>)
      requires Valid() && cacheLength == 0 && NoPut(Partial() + available, nbo)
      modifies this, cache
      ensures Valid() && cacheLength == 0 && available == taken + rest
      ensures Partial() == Parse(old(Partial()) + taken, nbo).rest && !Complete(Partial(), nbo)
      ensures delivered == old(delivered) + calls && Carry(calls, Parse(old(Partial()) + taken, nbo).messages)
      ensures |taken| >= old(NextRead(available)) && Later(old(portions), portions)
    {
      hide Parse, Carry, NoPut, Valid, Need, IsSend, Carries, Content, Usable, Framed, Complete, Later;
      NoneRead(portions);
      calls := [];
      ghost var before: seq<Byte>, ms: seq<Message> := [], [];
      ghost var stream := Partial() + available;
      Begin();
      NothingFramed(nbo, Partial(), Cached(), available);
      rest := available;
      var complete := true;
      ghost var first, drawn := true, NextRead(available);
      while complete
        invariant if first then cacheLength == 0 && NextRead(available) == drawn && rest == available && complete
                  else |rest| + drawn <= |available|
        invariant Later(old(portions), portions)
        invariant Valid() && Caches() && (complete ==> busy) && |rest| <= |available|
        invariant before + (Partial() + Cached() + rest) == stream
        invariant Framed(before, ms, calls, nbo) && delivered == old(delivered) + calls
        invariant !complete ==> cacheLength == 0 && !Complete(Partial(), nbo)
        decreases complete, |stream| - |before|
      {
        ghost var m, more;
        ghost var before' := portions;
        complete, rest, m, more := NextMessage(rest);
        first := false;
        LaterStill(old(portions), before', portions);
        Assoc(old(delivered), calls, more);
        if complete {
          FramedMore(before, ms, calls, m, more, nbo);
          Regrouped(before, m.hdr + m.payload, Cached(), rest);
          before, ms, calls := before + (m.hdr + m.payload), ms + [m], calls + more;
          complete := cacheLength != 0;
        }
      }
      taken := available[..|available| - |rest|];
      FramedAll(before, ms, calls, Partial(), nbo);
      assert Cached() == [];
      Assoc(before, Partial(), rest);
      SplitTail(before + Partial(), rest, old(Partial()), available);
    }
  }

  /** The bytes so far are complete messages, and the upper layer has got them. */
  ghost predicate Framed(before: seq<Byte>, ms: seq<Message>, calls: seq<Delivered>, nbo: bool) {
    Parse(before, nbo) == Parsed(ms, []) && Carry(calls, ms)
  }

  lemma NothingFramed(nbo: bool, part: seq<Byte>, cached: seq<Byte>, available: seq<Byte>)
    ensures Framed([], [], [], nbo) && !Complete([], nbo)
    ensures (cached == [] ==> [] + (part + cached + available) == part + available)
  {
  }

  lemma Regrouped(a: seq<Byte>, b: seq<Byte>, c: seq<Byte>, d: seq<Byte>)
    ensures a + b + ([] + c + d) == a + (b + (c + d))
  {
  }

  lemma FramedMore(before: seq<Byte>, ms: seq<Message>, calls: seq<Delivered>, m: Message, more: seq<Delivered>,
                   nbo: bool)
    requires Framed(before, ms, calls, nbo) && |m.hdr| == HDR_SIZE && |m.payload| == Need(m.hdr, nbo)
    requires if IsSend(m) then |more| == 1 && Carries(more[0], m) else more == []
    ensures Framed(before + (m.hdr + m.payload), ms + [m], calls + more, nbo)
  {
    hide Parse, Need, Carry;
    ParseAdd(before, ms, m, nbo);
    CarryMore(calls, ms, m, more);
  }

  lemma FramedAll(before: seq<Byte>, ms: seq<Message>, calls: seq<Delivered>, part: seq<Byte>, nbo: bool)
    requires Framed(before, ms, calls, nbo) && !Complete(part, nbo)
    ensures Parse(before + part, nbo) == Parsed(ms, part) && Carry(calls, ms)
  {
    hide Parse, Carry, Complete;
    ParseEnd(before, ms, part, nbo);
  }

  lemma SplitTail(a: seq<Byte>, b: seq<Byte>, c: seq<Byte>, d: seq<Byte>)
    requires a + b == c + d && |b| <= |d|
    ensures var t := d[..|d| - |b|]; d == t + b && a == c + t
  {
    var t := d[..|d| - |b|];
    assert d[|d| - |b|..] == (c + d)[|a|..] == (a + b)[|a|..] == b;
    assert c + t == (c + d)[..|a|] == (a + b)[..|a|] == a;
  }

  lemma ParseNothing(nbo: bool)
    ensures Parse([], nbo) == Parsed([], []) && Carry([], [])
  {
  }

  lemma ParseEnd(before: seq<Byte>, ms: seq<Message>, part: seq<Byte>, nbo: bool)
    requires Parse(before, nbo) == Parsed(ms, []) && !Complete(part, nbo)
    ensures Parse(before + part, nbo) == Parsed(ms, part)
  {
    hide Need, Parse;
    ParseMore(before, part, nbo);
    assert [] + part == part;
    ParseStep(part, nbo);
  }

  lemma ParseAdd(before: seq<Byte>, ms: seq<Message>, m: Message, nbo: bool)
    requires Parse(before, nbo) == Parsed(ms, []) && |m.hdr| == HDR_SIZE && |m.payload| == Need(m.hdr, nbo)
    ensures Parse(before + (m.hdr + m.payload), nbo) == Parsed(ms + [m], [])
  {
    hide Need;
    ParseMore(before, m.hdr + m.payload, nbo);
    ParseFirst(m.hdr, m.payload, [], nbo);
    assert m.hdr + m.payload + [] == m.hdr + m.payload == [] + (m.hdr + m.payload);
  }

  lemma {:induction false} NoPutRest(a: seq<Byte>, b: seq<Byte>, nbo: bool)
    requires NoPut(a + b, nbo)
    ensures NoPut(Parse(a, nbo).rest + b, nbo)
    decreases |a|
  {
    hide Need, Parse;
    ParseStep(a, nbo);
    if Complete(a, nbo) {
      var n := HDR_SIZE + Need(a[..HDR_SIZE], nbo);
      assert (a + b)[..HDR_SIZE] == a[..HDR_SIZE] && (a + b)[n..] == a[n..] + b;
      NoPutRest(a[n..], b, nbo);
    }
  }

  lemma {:induction false} NoPutPrefix(a: seq<Byte>, b: seq<Byte>, nbo: bool)
    requires NoPut(a + b, nbo)
    ensures NoPut(a, nbo)
    decreases |a|
  {
    hide Need;
    if Complete(a, nbo) {
      var n := HDR_SIZE + Need(a[..HDR_SIZE], nbo);
      assert (a + b)[..HDR_SIZE] == a[..HDR_SIZE] && (a + b)[n..] == a[n..] + b;
      NoPutPrefix(a[n..], b, nbo);
    } else if |a| >= HDR_SIZE {
      assert (a + b)[1] == a[1];
    }
  }

  /** Any number of wake-ups: whatever arrives before each of them, and however the reads are split, the
      upper layer has got exactly the messages that are complete, in order.  If the reads find all that has arrived and
      the cache can take it, nothing stays in the socket. */
  method Events(r: Receiver, arrivals: seq<seq<Byte>>) returns (pending: seq<Byte>, ghost received: seq<Byte>)
    requires r.Valid() && r.cacheLength == 0 && !r.busy && r.delivered == [] && NoPut(Flatten(arrivals), r.nbo)
    modifies r, r.cache
    ensures received + pending == Flatten(arrivals)
    ensures Carry(r.delivered, Parse(received, r.nbo).messages) && r.Partial() == Parse(received, r.nbo).rest
    ensures r.cacheLength == 0
    ensures old(r.portions) == [] && Short(arrivals, r.cache.Length) ==> pending == []
  {
    pending, received := [], [];
    ParseNothing(r.nbo);
    ghost var stream := Flatten(arrivals);
    hide Parse, Carry, NoPut, Need, Flatten, Receiver.Valid, Later, Short, Receiver.NextRead, Receiver.Partial;
    var todo := arrivals;
    while todo != []
      invariant r.Valid() && r.cacheLength == 0
      invariant received + (pending + Flatten(todo)) == stream
      invariant Carry(r.delivered, Parse(received, r.nbo).messages) && r.Partial() == Parse(received, r.nbo).rest
      invariant old(r.portions) == [] && Short(arrivals, r.cache.Length) ==>
        r.portions == [] && pending == [] && Short(todo, r.cache.Length)
    {
      ShortRest(todo, r.cache.Length);
      Arrive(received, pending, todo, stream, r.nbo);
      ghost var before := r.portions;
      pending, received := OneEvent(r, pending + todo[0], received, Flatten(todo[1..]));
      NoneLater(before, r.portions);
      todo := todo[1..];
    }
    FlattenNone();
  }

  /** Every arrival fits into the cache. */
  ghost predicate Short(arrivals: seq<seq<Byte>>, size: nat) {
    forall i :: 0 <= i < |arrivals| ==> |arrivals[i]| <= size
  }

  lemma ShortRest(todo: seq<seq<Byte>>, size: nat)
    requires todo != []
    ensures Short(todo, size) ==> |[] + todo[0]| <= size && Short(todo[1..], size)
  {
  }

  lemma NoneLater(portions: seq<nat>, later: seq<nat>)
    requires Later(portions, later)
    ensures portions == [] ==> later == []
  {
  }

  method OneEvent(r: Receiver, available: seq<Byte>, ghost before: seq<Byte>, ghost later: seq<Byte>)
    returns (pending: seq<Byte>, ghost received: seq<Byte>)
    requires r.Valid() && r.cacheLength == 0 && NoPut(r.Partial() + available, r.nbo)
    requires Carry(r.delivered, Parse(before, r.nbo).messages) && r.Partial() == Parse(before, r.nbo).rest
    modifies r, r.cache
    ensures r.Valid() && r.cacheLength == 0 && received + (pending + later) == before + (available + later)
    ensures received + pending == before + available
    ensures Carry(r.delivered, Parse(received, r.nbo).messages) && r.Partial() == Parse(received, r.nbo).rest
    ensures |pending| + old(r.NextRead(available)) <= |available| && Later(old(r.portions), r.portions)
    ensures old(r.portions) == [] && |available| <= r.cache.Length ==> pending == []
  {
    assert r.left > 0;
    hide Parse, Carry, NoPut, Need, Receiver.Valid, Later;
    ghost var taken, calls;
    ghost var done := r.delivered;
    pending, taken, calls := r.RecvHandler(available);
    received := before + taken;
    ParseMore(before, taken, r.nbo);
    CarryConcat(done, Parse(before, r.nbo).messages, calls, Parse(Parse(before, r.nbo).rest + taken, r.nbo).messages);
    Regroup4(before, taken, pending, later);
    Assoc(before, taken, pending);
  }

  /** As long as bytes are left, the event comes again.  If no read comes back empty, all of them are framed. */
  method Drain(r: Receiver, stream: seq<Byte>)
    requires r.Valid() && r.cacheLength == 0 && r.Partial() == [] && r.delivered == [] && NoPut(stream, r.nbo)
    requires Positive(r.portions)
    modifies r, r.cache
    ensures Carry(r.delivered, Parse(stream, r.nbo).messages) && r.Partial() == Parse(stream, r.nbo).rest
  {
    hide Parse, Carry, NoPut, Need, Receiver.Valid, Later, Positive, Receiver.NextRead;
    ghost var received: seq<Byte> := [];
    var pending := stream;
    ParseNothing(r.nbo);
    assert received + pending == stream;
    while pending != []
      invariant r.Valid() && r.cacheLength == 0 && received + pending == stream
      invariant Carry(r.delivered, Parse(received, r.nbo).messages) && r.Partial() == Parse(received, r.nbo).rest
      invariant Positive(r.portions)
      decreases |pending|
    {
      NoPutRest(received, pending, r.nbo);
      Reads(r, pending);
      ghost var before := r.portions;
      pending, received := OneEvent(r, pending, received, []);
      StillPositive(before, r.portions);
    }
    assert received + [] == received;
  }

  ghost predicate Positive(portions: seq<nat>) {
    forall i :: 0 <= i < |portions| ==> portions[i] > 0
  }

  lemma StillPositive(portions: seq<nat>, later: seq<nat>)
    requires Positive(portions) && Later(portions, later)
    ensures Positive(later)
  {
  }

  lemma Reads(r: Receiver, available: seq<Byte>)
    requires r.Valid() && available != [] && Positive(r.portions)
    ensures r.NextRead(available) > 0
  {
  }

  lemma FlattenNone()
    ensures Flatten<Byte>([]) == []
  {
  }

  lemma Arrive(received: seq<Byte>, pending: seq<Byte>, todo: seq<seq<Byte>>, stream: seq<Byte>, nbo: bool)
    requires todo != [] && received + (pending + Flatten(todo)) == stream && NoPut(stream, nbo)
    ensures received + (pending + todo[0] + Flatten(todo[1..])) == stream
    ensures NoPut(Parse(received, nbo).rest + (pending + todo[0]), nbo)
  {
    hide NoPut, Parse;
    var x, later := todo[0], Flatten(todo[1..]);
    assert Flatten(todo) == x + later;
    hide Flatten;
    assert pending + (x + later) == pending + x + later;
    assert received + (pending + x + later) == received + (pending + x) + later;
    NoPutPrefix(received + (pending + x), later, nbo);
    NoPutRest(received, pending + x, nbo);
  }

  lemma Regroup4(a: seq<Byte>, b: seq<Byte>, c: seq<Byte>, d: seq<Byte>)
    ensures a + b + (c + d) == a + (b + c + d)
  {
  }

  /** A message with tag 5 and the payload 7, and an empty message with tag 6, in network order. */
  const LOADED: seq<Byte> := [5, 1, 0, 0, 0, 0, 0, 1]
  const EMPTY: seq<Byte> := [6, 1, 0, 0, 0, 0, 0, 0]

  /** When both are read at once, the empty message is handed out with the payload of the other one. */
  method EmptyMessageComesWithOldBytes() returns (r: Receiver)
    ensures r.delivered == [Delivered(5, [7]), Delivered(6, [7])]
  {
    hide Size, Receiver.Content;
    r := new Receiver(17, true, []);
    r.Begin();
    TakeLoaded(r);
    TakeEmpty(r);
  }

  method TakeLoaded(r: Receiver)
    requires r.Valid() && r.busy && r.nbo && r.Partial() == [] && r.Cached() == []
    requires r.portions == [] && r.cacheLength == 0 && r.cache.Length >= 17
    modifies r, r.cache
    ensures r.Valid() && r.busy && r.index == 0 && r.Partial() == [] && r.Cached() == EMPTY && r.Content() == [7]
    ensures r.delivered == old(r.delivered) + [Delivered(5, [7])]
  {
    hide Size, Complete, Receiver.Content, Need;
    Headers();
    assert r.Partial() + r.Cached() + (LOADED + [7] + EMPTY) == LOADED + [7] + EMPTY;
    ghost var m, calls;
    var complete, rest;
    complete, rest, m, calls := r.NextMessage(LOADED + [7] + EMPTY);
    assert complete by {
      assert r.Partial() + rest == r.Partial();
    }
    FirstOf(m, r.Cached() + rest);
    assert r.Cached() + rest == r.Cached();
    assert |r.Cached()| == r.cacheLength;
  }

  method TakeEmpty(r: Receiver)
    requires r.Valid() && r.busy && r.nbo && r.index == 0 && r.Partial() == [] && r.Cached() == EMPTY
    requires r.Content() == [7]
    modifies r, r.cache
    ensures r.delivered == old(r.delivered) + [Delivered(6, [7])]
  {
    hide Size, Complete, Receiver.Content, Need;
    Headers();
    assert r.Partial() + r.Cached() + [] == EMPTY && |r.Cached()| == r.cacheLength;
    ghost var m, calls;
    var complete, rest;
    complete, rest, m, calls := r.NextMessage([]);
    assert complete by {
      assert r.Partial() + rest == r.Partial();
    }
    SecondOf(m, r.Cached() + rest);
  }

  lemma Headers()
    ensures Size(LOADED, true) == 1 && Size(EMPTY, true) == 0
    ensures Complete(LOADED + [7] + EMPTY, true) && Complete(EMPTY, true)
  {
    assert (LOADED + [7] + EMPTY)[..HDR_SIZE] == LOADED && EMPTY[..HDR_SIZE] == EMPTY;
  }

  lemma FirstOf(m: Message, after: seq<Byte>)
    requires |m.hdr| == HDR_SIZE && |m.payload| == Need(m.hdr, true)
    requires m.hdr + m.payload + after == LOADED + [7] + EMPTY
    ensures m == Message(LOADED, [7]) && after == EMPTY
  {
    hide Size;
    Headers();
    var all := m.hdr + m.payload + after;
    assert all[..HDR_SIZE] == m.hdr && all[..HDR_SIZE] == LOADED;
    assert all[HDR_SIZE..HDR_SIZE + 1] == m.payload && all[HDR_SIZE + 1..] == after;
    assert all[HDR_SIZE..HDR_SIZE + 1] == [7] && all[HDR_SIZE + 1..] == EMPTY;
  }

  lemma SecondOf(m: Message, after: seq<Byte>)
    requires |m.hdr| == HDR_SIZE && |m.payload| == Need(m.hdr, true) && m.hdr + m.payload + after == EMPTY
    ensures m == Message(EMPTY, [])
  {
    hide Size;
    Headers();
    assert (m.hdr + m.payload + after)[..HDR_SIZE] == m.hdr && EMPTY[..HDR_SIZE] == EMPTY;
  }
}
