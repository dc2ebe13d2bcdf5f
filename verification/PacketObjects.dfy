/** The packet objects of wxf/wire/pkt, read from a reader and written to a buffer in place. */
module PacketObjects {
  import opened Bytes
  import opened Endian
  import opened HeaderCodec
  import opened MetaList
  import opened Packets

  class LogicPkt {
    var header: Header  // every field but Meta, which is the slice below
    var backing: array<Meta>
    var len: nat
    var body: bytes

    ghost predicate Valid()
      reads this
    {
      len <= backing.Length && header.meta == []
    }

    ghost function Value(): LogicPacket
      reads this, backing
      requires Valid()
    {
      LogicPacket(header.(meta := backing[..len]), body)
    }

    constructor ()
      ensures Valid() && fresh(backing) && Value() == LogicPacket(EMPTY_HEADER, [])
    {
      header, len, body := EMPTY_HEADER, 0, [];
      backing := new Meta[0];
    }

    /** NewFrom: a packet that answers another one. */
    constructor NewFrom(h: Header)
      ensures Valid() && fresh(backing) && Value() == Answer(h)
      ensures var p := Value();
              && p.header.command == h.command && p.header.channelId == h.channelId
              && p.header.sequence == h.sequence && p.header.status == h.status && p.header.dest == h.dest
              && p.header.flag == 0 && p.header.meta == [] && p.header.unknown == [] && p.body == []
    {
      header := EMPTY_HEADER.(
        command := h.command, sequence := h.sequence, channelId := h.channelId,
        status := h.status, dest := h.dest);
      len, body := 0, [];
      backing := new Meta[0];
    }

    method GetMeta(key: GoString) returns (r: Option<MetaValue>)
      requires Valid()
      ensures r == FindMeta(Value().header.meta, key)
    {
      var i := 0;
      while i < len
        invariant 0 <= i <= len
        invariant FindMeta(backing[..len], key) == FindMeta(backing[i..len], key)
      {
        if backing[i].key == key {
          return Some(Interpret(backing[i]));
        }
        assert backing[i..len][1..] == backing[i + 1..len];
        i := i + 1;
      }
      assert backing[len..len] == [];
      r := None;
    }

    /** append: in place when the backing array has room, else in a larger copy. */
    method AddMeta(m: Meta)
      requires Valid()
      modifies this, backing
      ensures Valid() && (backing == old(backing) || fresh(backing))
      ensures Value() == AddMetas(old(Value()), [m])
    {
      if len == backing.Length {
        var bigger := new Meta[2 * len + 1];
        forall j | 0 <= j < len {
          bigger[j] := backing[j];
        }
        assert bigger[..len] == backing[..len];
        backing := bigger;
      }
      backing[len] := m;
      len := len + 1;
      assert backing[..len] == old(backing[..len]) + [m];
    }

    method AddStringMeta(key: GoString, value: GoString)
      requires Valid()
      modifies this, backing
      ensures Valid() && (backing == old(backing) || fresh(backing))
      ensures Value() == AddMetas(old(Value()), [StringMeta(key, value)])
    {
      AddMeta(StringMeta(key, value));
    }

    /** One iteration: the entry at `i` goes if it has the key, and those behind it move up. */
    method DelAt(i: nat, key: GoString, ghost n: nat)
      requires Valid() && i < n <= backing.Length && n - i <= len <= n
      modifies this`len, backing
      ensures (backing[..n], len) == DelStep(old(backing[..n]), old(len), i, key)
    {
      ghost var before := backing[..n];
      if backing[i].key == key {
        var length := len;
        if i < length - 1 {
          CopyDown(backing, i, length, n);
          assert before[..i] == old(backing[..i]);
          assert before[i + 1..length] == old(backing[i + 1..length]);
          assert before[length - 1..] == old(backing[length - 1..n]);
        }
        len := length - 1;
      }
    }

    /** The loop ranges over the slice as it was on entry while it shifts and shortens it. */
    method DelMeta(key: GoString)
      requires Valid()
      modifies this`len, backing
      ensures Valid()
      ensures Value() == old(Value()).(header := old(Value()).header.(
                           meta := MetaList.DelMeta(old(Value()).header.meta, key)))
    {
      hide DelStep;
      var n, i := len, 0;
      assert backing[..n] == old(backing[..len]);
      while i < n
        invariant 0 <= i <= n <= backing.Length && n - i <= len <= n
        invariant DelRun(backing[..n], len, i, key) == MetaList.DelMeta(old(backing[..len]), key)
      {
        DelAt(i, key, n);
        i := i + 1;
      }
      assert backing[..n][..len] == backing[..len];
    }

    method Decode(r: Reader) returns (e: Option<Error>)
      requires Valid()
      modifies this, r
      ensures match DecodeLogic(old(r.data))
              case Ok(p, rest) => e == None && Valid() && fresh(backing) && Value() == p && r.data == rest
              case Err(err) => e == Some(err)
    {
      var h := r.ReadBytes(4);
      if h.Failure? {
        return Some(h.error);
      }
      var decoded := DecodeHeader(h.value);
      if decoded.None? {
        return Some(BadHeader);
      }
      header := decoded.value.(meta := []);
      len := |decoded.value.meta|;
      backing := new Meta[len](i requires 0 <= i < |decoded.value.meta| => decoded.value.meta[i]);
      assert backing[..len] == decoded.value.meta;
      var b := r.ReadBytes(4);
      if b.Failure? {
        return Some(b.error);
      }
      body := b.value;
      e := None;
    }

    method Encode(w: Buffer)
      requires Valid()
      modifies w
      ensures w.contents == old(w.contents) + EncodeLogic(Value())
    {
      var h := HeaderCodec.Marshal(header.(meta := backing[..len]));
      if h.None? {
        assert w.contents + [] == w.contents;
        return;
      }
      w.WriteBytes(4, h.value);
      w.WriteBytes(4, body);
      ConcatAssoc(old(w.contents), PutBytes(4, h.value), PutBytes(4, body));
    }
  }

  /** copy(s[i:], s[i+1:]) on the first `length` entries of `a`, seen through the first `n`. */
  method CopyDown(a: array<Meta>, i: nat, length: nat, ghost n: nat)
    requires i < length - 1 && length <= n <= a.Length
    modifies a
    ensures a[..n] == old(a[..i]) + old(a[i + 1..length]) + old(a[length - 1..n])
  {
    forall j | i <= j < length - 1 {
      a[j] := a[j + 1];
    }
    ghost var s := old(a[..i]) + old(a[i + 1..length]) + old(a[length - 1..n]);
    assert |s| == n;
    forall k | 0 <= k < n
      ensures a[k] == s[k]
    {
      if i <= k < length - 1 {
        assert a[k] == old(a[k + 1]) == old(a[i + 1..length])[k - i];
      } else if k >= length - 1 {
        assert a[k] == old(a[k]) == old(a[length - 1..n])[k - (length - 1)];
      }
    }
  }

  class BasicPkt {
    var code: uint16
    var length: uint16
    var body: bytes

    ghost function Value(): BasicPacket
      reads this
    {
      BasicPacket(code, length, body)
    }

    constructor (code: uint16, length: uint16, body: bytes)
      ensures Value() == BasicPacket(code, length, body)
    {
      this.code, this.length, this.body := code, length, body;
    }

    /** Decode leaves the Body alone when the packet read has none. */
    method Decode(r: Reader) returns (e: Option<Error>)
      modifies this, r
      ensures match DecodeBasic(old(r.data))
              case Ok(p, rest) =>
                e == None && Value() == (if p.length == 0 then p.(body := old(body)) else p) && r.data == rest
              case Err(err) => e == Some(err)
    {
      Widths();
      ghost var data := r.data;
      var c := r.ReadUint(2);
      if c.Failure? {
        return Some(c.error);
      }
      UintBound(data[..2]);
      code := c.value;
      var l := r.ReadUint(2);
      if l.Failure? {
        return Some(l.error);
      }
      UintBound(data[2..][..2]);
      length := l.value;
      if length > 0 {
        var b := r.ReadFull(length);
        if b.Failure? {
          return Some(b.error);
        }
        body := b.value;
      }
      e := None;
    }

    method Encode(w: Buffer)
      modifies w
      ensures w.contents == old(w.contents) + EncodeBasic(Value())
    {
      Widths();
      w.WriteUint(2, code);
      w.WriteUint(2, length);
      if length > 0 {
        w.Write(body);
      }
      assert w.contents == old(w.contents) + EncodeBasic(Value());
    }
  }

  datatype PacketObject = LogicObject(logic: LogicPkt) | BasicObject(basic: BasicPkt)

  /** The object is a new one that stands for the packet. */
  twostate predicate Stands(new o: PacketObject, p: Packet)
    reads match o case LogicObject(l) => {l, l.backing} case BasicObject(b) => {b}
  {
    match o
    case LogicObject(l) => fresh(l) && fresh(l.backing) && l.Valid() && p == Logic(l.Value())
    case BasicObject(b) => fresh(b) && p == Basic(b.Value())
  }

  method Read(r: Reader) returns (res: Result<PacketObject>)
    modifies r
    ensures match Packets.Read(old(r.data))
            case Ok(p, rest) => res.Success? && Stands(res.value, p) && r.data == rest
            case Err(e) => res == Failure(e)
  {
    var magic := r.ReadFull(4);
    if magic.Failure? {
      return Failure(magic.error);
    }
    if magic.value == MAGIC_BASIC {
      var p := new BasicPkt(0, 0, []);
      var e := p.Decode(r);
      res := if e.Some? then Failure(e.value) else Success(BasicObject(p));
    } else if magic.value == MAGIC_LOGIC {
      var p := new LogicPkt();
      var e := p.Decode(r);
      res := if e.Some? then Failure(e.value) else Success(LogicObject(p));
    } else {
      res := Failure(BadMagic);
    }
  }

  method MustReadLogicPkt(r: Reader) returns (res: Result<LogicPkt>)
    modifies r
    ensures match MustReadLogic(old(r.data))
            case Ok(p, rest) =>
              res.Success? && Stands(LogicObject(res.value), Logic(p)) && r.data == rest
            case Err(e) => res == Failure(e)
  {
    var val := Read(r);
    match val
    case Failure(e) => res := Failure(e);
    case Success(LogicObject(lp)) => res := Success(lp);
    case Success(BasicObject(_)) => res := Failure(NotLogicPkt);
  }

  method MustReadBasicPkt(r: Reader) returns (res: Result<BasicPkt>)
    modifies r
    ensures match MustReadBasic(old(r.data))
            case Ok(p, rest) =>
              res.Success? && Stands(BasicObject(res.value), Basic(p)) && r.data == rest
            case Err(e) => res == Failure(e)
  {
    var val := Read(r);
    match val
    case Failure(e) => res := Failure(e);
    case Success(BasicObject(bp)) => res := Success(bp);
    case Success(LogicObject(_)) => res := Failure(NotBasicPkt);
  }

  method MarshalLogic(p: LogicPkt) returns (b: bytes)
    requires p.Valid()
    ensures b == Packets.Marshal(Logic(p.Value()))
  {
    var buf := new Buffer();
    buf.Write(MAGIC_LOGIC);
    p.Encode(buf);
    b := buf.contents;
  }

  method MarshalBasic(p: BasicPkt) returns (b: bytes)
    ensures b == Packets.Marshal(Basic(p.Value()))
  {
    var buf := new Buffer();
    buf.Write(MAGIC_BASIC);
    p.Encode(buf);
    b := buf.contents;
  }
}
