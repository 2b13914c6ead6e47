/** A log entry on the heap: a term, a type, and a buffer that carries its own cursor. */
module Entries {
  import opened Types
  import opened Bytes
  import opened Codec
  import opened Buffers

  class LogEntry {
    var term: nat
    const kind: byte
    const buf: Buffer

    constructor (term: nat, kind: byte, buf: Buffer)
      ensures this.term == term && this.kind == kind && this.buf == buf
    {
      this.term, this.kind, this.buf := term, kind, buf;
    }

    ghost predicate Valid()
      reads this, buf.raw
    {
      buf.Valid()
    }

    /** What a reader sees: the payload from the buffer's cursor on. */
    ghost function Value(): Entry
      requires Valid()
      reads this, buf.raw
    {
      Entry(term, kind, buf.Rest())
    }

    /** The whole entry, wherever the cursor stands. */
    ghost function Whole(): Entry
      requires Valid()
      reads this, buf.raw
    {
      Entry(term, kind, buf.Data())
    }

    /** The entry is `x`, with the cursor at the front. */
    ghost predicate Holds(x: Entry)
      reads this, buf.raw
    {
      Valid() && buf.Pos() == 0 && Whole() == x
    }

    lemma HoldsValue(x: Entry)
      requires Holds(x)
      ensures Valid() && Value() == Whole() == x && term == x.term && kind == x.kind
      ensures buf.Pos() == 0 && |x.data| < TWO_31
    {
    }

    lemma HoldsKind(x: Entry)
      requires Holds(x)
      ensures kind == x.kind
    {
    }

    lemma NowHolds(data: seq<byte>)
      requires buf.Has(data)
      ensures Holds(Entry(term, kind, data))
    {
    }

    twostate lemma StillHolds(x: Entry)
      requires old(Holds(x)) && term == old(term) && buf.raw[..] == old(buf.raw[..])
      ensures Holds(x)
    {
    }

    /** Moving the cursor of `e`, which may share this entry's block, does not change the entry. */
    twostate lemma Keeps(e: LogEntry)
      requires old(Valid()) && term == old(term) && old(e.Valid()) && e.Valid() && e.Whole() == old(e.Whole())
      requires buf.raw == e.buf.raw || buf.raw[..] == old(buf.raw[..])
      ensures Valid() && Whole() == old(Whole())
    {
    }

    /** A copy that shares nothing with this entry and whose cursor is at the front. */
    method Clone() returns (c: LogEntry)
      requires Valid()
      ensures fresh(c) && fresh(c.buf.raw) && c.Holds(Value())
    {
      var b := Buffer.Copy(buf);
      c := new LogEntry(term, kind, b);
    }

    method Read() returns (v: Entry)
      requires Valid()
      ensures v == Value()
    {
      var data := buf.Unread();
      return Entry(term, kind, data);
    }

    /** Term, type and payload in one buffer; refused when they do not fit. */
    static method Encoded(term: nat, kind: byte, payload: Buffer) returns (b: Option<Buffer>)
      requires payload.Valid()
      ensures b.Some? <==> |EncodeEntry(Entry(term, kind, payload.Rest()))| < TWO_31
      ensures b.Some? ==> fresh(b.value) && fresh(b.value.raw)
      ensures b.Some? ==> b.value.Has(EncodeEntry(Entry(term, kind, payload.Rest())))
    {
      hide Bytes.PutULong;
      hide Buffer.Has, Buffer.Valid, Buffer.Data, Buffer.Pos, Buffer.Done, Buffer.Rest;
      var size := payload.Available();
      var out :- Buffer.Alloc(9 + size);
      out.Empty();
      var ok := out.PutULong(term);
      ok := out.PutByte(kind);
      ok := out.PutBuffer(payload);
      out.Rewind(EncodeEntry(Entry(term, kind, payload.Rest())));
      return Some(out);
    }

    /** Rewinds the payload and serializes all of it. */
    method Serialize() returns (b: Option<Buffer>)
      requires Valid()
      modifies buf.raw
      ensures Holds(old(Whole()))
      ensures b.Some? <==> |EncodeEntry(old(Whole()))| < TWO_31
      ensures b.Some? ==> fresh(b.value) && fresh(b.value.raw) && b.value.Has(EncodeEntry(old(Whole())))
      ensures old(buf.Pos()) == 0 ==> buf.raw[..] == old(buf.raw[..])
    {
      hide Buffer.Valid, Buffer.Data, Buffer.Pos, EncodeEntry;
      buf.SetPos(0);
      if old(buf.Pos()) == 0 {
        buf.Unmoved();
      }
      assert buf.Rest() == buf.Data();
      b := Encoded(term, kind, buf);
    }

    /** Reads an entry from the cursor of `b`; the payload is all that follows. */
    static method Deserialize(b: Buffer) returns (e: Option<LogEntry>)
      requires b.Valid()
      modifies b.raw
      ensures b.Valid() && b.Data() == old(b.Data())
      ensures match DecodeEntry(old(b.Rest()))
              case None => e == None
              case Some(x) =>
                e.Some? && fresh(e.value) && fresh(e.value.buf.raw) && e.value.Holds(x)
    {
      hide Buffer.Valid, Buffer.Data, Buffer.Pos;
      var term :- b.GetULong();
      var kind :- b.GetByte();
      var data := Buffer.Copy(b);
      var entry := new LogEntry(term, kind, data);
      return Some(entry);
    }
  }
}
