/** The archive recovery fixture: one bounded frame holding two archives of encrypted pages. */
module ArchiveFixture {
  import opened ByteCodec

  const MAX_FIXTURE: nat := 2 * 1024 * 1024
  const MAX_PAGES: nat := 16
  const MAX_ARCHIVE_PAGE_BYTES: nat := 512 * 1024
  /** "VHARS001" */
  const MAGIC: Bytes := [0x56, 0x48, 0x41, 0x52, 0x53, 0x30, 0x30, 0x31]

  type Id = b: Bytes | |b| == 32 witness seq(32, _ => 0)

  /** Which 32 bytes the identifier constructors accept; accepting keeps the bytes. */
  datatype Validity = Validity(room: Id -> bool, anchor: Id -> bool, key: Id -> bool)

  datatype Context = Context(room: Id, anchor: Id, account: Id, device: Id)

  datatype Archive = Archive(id: Id, pages: seq<Bytes>)

  datatype Fixture = Fixture(namespace: Id, context: Context, a: Archive, b: Archive)

  datatype Error = FrameBound | Truncation | InvalidIdentifier | PageCount | PageBound | TrailingBytes

  datatype Parsed<+T> = Ok(value: T, rest: Bytes) | Bad(error: Error) {
    predicate IsFailure() {
      Bad?
    }

    function PropagateFailure<U>(): Parsed<U>
      requires Bad?
    {
      Bad(error)
    }

    function Extract(): (T, Bytes)
      requires Ok?
    {
      (value, rest)
    }
  }

  // ---------------------------------------------------------------------------------------
  // The frame

  /** A length as the four bytes a 32-bit cast leaves of it. */
  function Length(n: nat): (out: Bytes)
    ensures |out| == 4
  {
    Int(B4, n % B4.Limit())
  }

  function PageBytes(page: Bytes): Bytes {
    Length(|page|) + page
  }

  function PagesBytes(pages: seq<Bytes>): Bytes {
    if pages == [] then [] else PageBytes(pages[0]) + PagesBytes(pages[1..])
  }

  function ArchiveBytes(x: Archive): Bytes {
    x.id + (Length(|x.pages|) + PagesBytes(x.pages))
  }

  function ContextBytes(c: Context): Bytes {
    c.room + (c.anchor + (c.account + c.device))
  }

  function FrameBytes(f: Fixture): Bytes {
    MAGIC + (f.namespace + (ContextBytes(f.context) + (ArchiveBytes(f.a) + ArchiveBytes(f.b))))
  }

  predicate BoundedPages(pages: seq<Bytes>) {
    forall i | 0 <= i < |pages| :: 0 < |pages[i]| <= MAX_ARCHIVE_PAGE_BYTES
  }

  predicate BoundedArchive(x: Archive) {
    3 <= |x.pages| <= MAX_PAGES && BoundedPages(x.pages)
  }

  predicate Bounded(v: Validity, f: Fixture) {
    && v.room(f.context.room) && v.anchor(f.context.anchor)
    && v.key(f.context.account) && v.key(f.context.device)
    && BoundedArchive(f.a) && BoundedArchive(f.b)
    && |FrameBytes(f)| <= MAX_FIXTURE
  }

  // ---------------------------------------------------------------------------------------
  // Reading a frame

  function Take(n: nat, b: Bytes): (r: Parsed<Bytes>)
    ensures r.Ok? ==> |r.value| == n
  {
    if n <= |b| then Ok(b[..n], b[n..]) else Bad(Truncation)
  }

  function TakeId(valid: Id -> bool, b: Bytes): Parsed<Id> {
    var (id, rest) :- Take(32, b);
    if valid(id) then Ok(id, rest) else Bad(InvalidIdentifier)
  }

  function TakeLength(b: Bytes): Parsed<nat> {
    var (raw, rest) :- Take(4, b);
    Ok(Value(B4, raw), rest)
  }

  function ParsePage(b: Bytes): Parsed<Bytes> {
    var (length, rest) :- TakeLength(b);
    if 0 < length <= MAX_ARCHIVE_PAGE_BYTES then Take(length, rest) else Bad(PageBound)
  }

  function ParsePages(n: nat, b: Bytes): Parsed<seq<Bytes>> {
    if n == 0 then Ok([], b)
    else
      var (page, rest) :- ParsePage(b);
      var (pages, rest') :- ParsePages(n - 1, rest);
      Ok([page] + pages, rest')
  }

  function ParseArchive(b: Bytes): Parsed<Archive> {
    var (id, rest) :- TakeId(_ => true, b);
    var (count, rest') :- TakeLength(rest);
    if 3 <= count <= MAX_PAGES then
      var (pages, rest'') :- ParsePages(count, rest');
      Ok(Archive(id, pages), rest'')
    else Bad(PageCount)
  }

  function ParseContext(v: Validity, b: Bytes): Parsed<Context> {
    var (room, rest) :- TakeId(v.room, b);
    var (anchor, rest') :- TakeId(v.anchor, rest);
    var (account, rest'') :- TakeId(v.key, rest');
    var (device, rest''') :- TakeId(v.key, rest'');
    Ok(Context(room, anchor, account, device), rest''')
  }

  function Parse(v: Validity, raw: Bytes): Parsed<Fixture> {
    if |raw| > MAX_FIXTURE || |raw| < 8 || raw[..8] != MAGIC then Bad(FrameBound)
    else
      var (namespace, rest) :- TakeId(_ => true, raw[8..]);
      var (context, rest') :- ParseContext(v, rest);
      var (a, rest'') :- ParseArchive(rest');
      var (b, rest''') :- ParseArchive(rest'');
      if rest''' == [] then Ok(Fixture(namespace, context, a, b), []) else Bad(TrailingBytes)
  }

  // ---------------------------------------------------------------------------------------
  // Decoding what was encoded

  lemma TakeBack(part: Bytes, rest: Bytes)
    ensures Take(|part|, part + rest) == Ok(part, rest)
  {
  }

  lemma IdBack(valid: Id -> bool, id: Id, rest: Bytes)
    requires valid(id)
    ensures TakeId(valid, id + rest) == Ok(id, rest)
  {
    TakeBack(id, rest);
  }

  lemma LengthValue(n: nat)
    requires n < B4.Limit()
    ensures Value(B4, Length(n)) == n
  {
    ValueOfInt(B4, n);
  }

  lemma LengthBack(n: nat, rest: Bytes)
    requires n < B4.Limit()
    ensures TakeLength(Length(n) + rest) == Ok(n, rest)
  {
    LengthValue(n);
    TakeBack(Length(n), rest);
  }

  lemma PageBack(page: Bytes, rest: Bytes)
    requires 0 < |page| <= MAX_ARCHIVE_PAGE_BYTES
    ensures ParsePage(PageBytes(page) + rest) == Ok(page, rest)
  {
    assert PageBytes(page) + rest == Length(|page|) + (page + rest);
    LengthBack(|page|, page + rest);
    TakeBack(page, rest);
  }

  lemma PageThenPages(first: Bytes, others: Bytes, rest: Bytes, page: Bytes, pages: seq<Bytes>)
    requires ParsePage(first + (others + rest)) == Ok(page, others + rest)
    requires ParsePages(|pages|, others + rest) == Ok(pages, rest)
    ensures ParsePages(1 + |pages|, (first + others) + rest) == Ok([page] + pages, rest)
  {
    Regroup(first, others, rest);
    assert ([page] + pages)[1..] == pages;
  }

  lemma {:induction false} PagesBack(pages: seq<Bytes>, rest: Bytes)
    requires BoundedPages(pages)
    ensures ParsePages(|pages|, PagesBytes(pages) + rest) == Ok(pages, rest)
  {
    if pages == [] {
      assert PagesBytes(pages) + rest == rest;
    } else {
      PageBack(pages[0], PagesBytes(pages[1..]) + rest);
      PagesBack(pages[1..], rest);
      PageThenPages(PageBytes(pages[0]), PagesBytes(pages[1..]), rest, pages[0], pages[1..]);
      assert [pages[0]] + pages[1..] == pages;
    }
  }

  lemma ArchiveBack(x: Archive, rest: Bytes)
    requires BoundedArchive(x)
    ensures ParseArchive(ArchiveBytes(x) + rest) == Ok(x, rest)
  {
    var pages := PagesBytes(x.pages) + rest;
    assert ArchiveBytes(x) + rest == x.id + (Length(|x.pages|) + pages);
    IdBack(_ => true, x.id, Length(|x.pages|) + pages);
    LengthBack(|x.pages|, pages);
    PagesBack(x.pages, rest);
  }

  lemma ContextBack(v: Validity, c: Context, rest: Bytes)
    requires v.room(c.room) && v.anchor(c.anchor) && v.key(c.account) && v.key(c.device)
    ensures ParseContext(v, ContextBytes(c) + rest) == Ok(c, rest)
  {
    assert ContextBytes(c) + rest == c.room + (c.anchor + (c.account + (c.device + rest)));
    IdBack(v.room, c.room, c.anchor + (c.account + (c.device + rest)));
    IdBack(v.anchor, c.anchor, c.account + (c.device + rest));
    IdBack(v.key, c.account, c.device + rest);
    IdBack(v.key, c.device, rest);
  }

  /** Decoding the encoding of a bounded fixture returns it. */
  lemma DecodeOfEncode(v: Validity, f: Fixture)
    requires Bounded(v, f)
    ensures Parse(v, FrameBytes(f)) == Ok(f, [])
  {
    var archives := ArchiveBytes(f.a) + ArchiveBytes(f.b);
    assert FrameBytes(f)[8..] == f.namespace + (ContextBytes(f.context) + archives);
    IdBack(_ => true, f.namespace, ContextBytes(f.context) + archives);
    ContextBack(v, f.context, archives);
    ArchiveBack(f.a, ArchiveBytes(f.b));
    ArchiveBack(f.b, []);
    assert ArchiveBytes(f.b) + [] == ArchiveBytes(f.b);
  }

  // ---------------------------------------------------------------------------------------
  // Encoding what was decoded

  lemma PageOut(b: Bytes)
    requires ParsePage(b).Ok?
    ensures var page := ParsePage(b).value;
            0 < |page| <= MAX_ARCHIVE_PAGE_BYTES && b == PageBytes(page) + ParsePage(b).rest
  {
    LengthOut(b);
  }

  lemma IdOut(valid: Id -> bool, b: Bytes)
    requires TakeId(valid, b).Ok?
    ensures valid(TakeId(valid, b).value) && b == TakeId(valid, b).value + TakeId(valid, b).rest
  {
  }

  lemma LengthOut(b: Bytes)
    requires TakeLength(b).Ok?
    ensures TakeLength(b).value < B4.Limit() && b == Length(TakeLength(b).value) + TakeLength(b).rest
  {
    IntOfValue(B4, b[..4]);
    assert b == b[..4] + b[4..];
  }

  lemma PutInFront(page: Bytes, pages: seq<Bytes>, end: Bytes)
    ensures PagesBytes([page] + pages) + end == PageBytes(page) + (PagesBytes(pages) + end)
    ensures BoundedPages([page] + pages) <==> 0 < |page| <= MAX_ARCHIVE_PAGE_BYTES && BoundedPages(pages)
  {
    assert ([page] + pages)[1..] == pages;
    Regroup(PageBytes(page), PagesBytes(pages), end);
    if BoundedPages([page] + pages) {
      assert forall i | 0 <= i < |pages| :: pages[i] == ([page] + pages)[i + 1];
    }
  }

  lemma {:induction false} PagesOut(n: nat, b: Bytes)
    requires ParsePages(n, b).Ok?
    ensures var pages := ParsePages(n, b).value;
            |pages| == n && BoundedPages(pages) && b == PagesBytes(pages) + ParsePages(n, b).rest
  {
    if n > 0 {
      var page, rest := ParsePage(b).value, ParsePage(b).rest;
      var pages, end := ParsePages(n - 1, rest).value, ParsePages(n - 1, rest).rest;
      PageOut(b);
      PagesOut(n - 1, rest);
      PutInFront(page, pages, end);
    }
  }

  lemma ArchiveOut(b: Bytes)
    requires ParseArchive(b).Ok?
    ensures var x := ParseArchive(b).value;
            BoundedArchive(x) && b == ArchiveBytes(x) + ParseArchive(b).rest
  {
    IdOut(_ => true, b);
    var rest := b[32..];
    LengthOut(rest);
    var count, pages := TakeLength(rest).value, TakeLength(rest).rest;
    PagesOut(count, pages);
    var x, end := ParseArchive(b).value, ParseArchive(b).rest;
    assert x.id + (Length(count) + (PagesBytes(x.pages) + end)) == ArchiveBytes(x) + end;
  }

  lemma ContextOut(v: Validity, b: Bytes)
    requires ParseContext(v, b).Ok?
    ensures var c := ParseContext(v, b).value;
            && v.room(c.room) && v.anchor(c.anchor) && v.key(c.account) && v.key(c.device)
            && b == ContextBytes(c) + ParseContext(v, b).rest
  {
    var c, end := ParseContext(v, b).value, ParseContext(v, b).rest;
    IdOut(v.room, b);
    var b1 := TakeId(v.room, b).rest;
    IdOut(v.anchor, b1);
    var b2 := TakeId(v.anchor, b1).rest;
    IdOut(v.key, b2);
    IdOut(v.key, TakeId(v.key, b2).rest);
    assert c.room + (c.anchor + (c.account + (c.device + end))) == ContextBytes(c) + end;
  }

  /** Re-encoding any accepted byte string returns exactly those bytes. */
  lemma EncodeOfDecode(v: Validity, raw: Bytes)
    requires Parse(v, raw).Ok?
    ensures Bounded(v, Parse(v, raw).value) && FrameBytes(Parse(v, raw).value) == raw
  {
    var f := Parse(v, raw).value;
    var rest := raw[8..][32..];
    ContextOut(v, rest);
    var archives := ParseContext(v, rest).rest;
    ArchiveOut(archives);
    ArchiveOut(ParseArchive(archives).rest);
    assert raw == MAGIC + (raw[8..][..32] + rest);
    assert ArchiveBytes(f.b) + [] == ArchiveBytes(f.b);
  }

  /** The accepted byte strings are exactly the encodings of bounded fixtures. */
  lemma AcceptedLanguage(v: Validity, raw: Bytes)
    ensures Parse(v, raw).Ok? <==> exists f :: Bounded(v, f) && FrameBytes(f) == raw
  {
    if Parse(v, raw).Ok? {
      EncodeOfDecode(v, raw);
    } else if f :| Bounded(v, f) && FrameBytes(f) == raw {
      DecodeOfEncode(v, f);
    }
  }

  // ---------------------------------------------------------------------------------------
  // The encoder and the decoder

  method AppendPages(before: Bytes, pages: seq<Bytes>) returns (out: Bytes)
    ensures out == before + PagesBytes(pages)
  {
    out := before;
    for i := 0 to |pages|
      invariant out + PagesBytes(pages[i..]) == before + PagesBytes(pages)
    {
      PagesFrom(pages, i);
      var others := PagesBytes(pages[i + 1..]);
      Regroup(out, PageBytes(pages[i]), others);
      Regroup(out, Length(|pages[i]|), pages[i]);
      out := out + Length(|pages[i]|);
      out := out + pages[i];
    }
  }

  lemma PagesFrom(pages: seq<Bytes>, i: nat)
    requires i < |pages|
    ensures PagesBytes(pages[i..]) == PageBytes(pages[i]) + PagesBytes(pages[i + 1..])
  {
    assert pages[i..][1..] == pages[i + 1..];
  }

  lemma HeaderBytes(f: Fixture)
    ensures ((((MAGIC + f.namespace) + f.context.room) + f.context.anchor) + f.context.account)
            + f.context.device == MAGIC + (f.namespace + ContextBytes(f.context))
    ensures FrameBytes(f) == (MAGIC + (f.namespace + ContextBytes(f.context)))
                             + (ArchiveBytes(f.a) + ArchiveBytes(f.b))
  {
    var archives := ArchiveBytes(f.a) + ArchiveBytes(f.b);
    Regroup(f.namespace, ContextBytes(f.context), archives);
    Regroup(MAGIC, f.namespace + ContextBytes(f.context), archives);
  }

  method Encode(f: Fixture) returns (out: Bytes)
    ensures out == FrameBytes(f)
  {
    out := MAGIC;
    out := out + f.namespace;
    out := out + f.context.room;
    out := out + f.context.anchor;
    out := out + f.context.account;
    out := out + f.context.device;
    HeaderBytes(f);
    var archives := [f.a, f.b];
    ghost var header := out;
    for k := 0 to 2
      invariant out == header + (if k == 0 then [] else if k == 1 then ArchiveBytes(f.a)
                                 else ArchiveBytes(f.a) + ArchiveBytes(f.b))
    {
      ghost var before := out;
      out := out + archives[k].id;
      out := out + Length(|archives[k].pages|);
      out := AppendPages(out, archives[k].pages);
      Regroup(before + archives[k].id, Length(|archives[k].pages|), PagesBytes(archives[k].pages));
      Regroup(before, archives[k].id, Length(|archives[k].pages|) + PagesBytes(archives[k].pages));
      Regroup(header, ArchiveBytes(f.a), ArchiveBytes(f.b));
    }
  }

  /** A cursor over the frame being decoded. */
  class Cursor {
    const raw: Bytes
    var offset: nat

    predicate Valid()
      reads this
    {
      offset <= |raw|
    }

    function Rest(): Bytes
      requires Valid()
      reads this
    {
      raw[offset..]
    }

    /** What a parser says of the remaining bytes, the cursor did: it moved past the value, or
        found the same error. */
    predicate Did<T(==)>(parsed: Parsed<T>, r: Result<T>)
      reads this
    {
      Valid() && match parsed
                 case Ok(value, rest) => r == Got(value) && Rest() == rest
                 case Bad(error) => r == Refused(error)
    }

    constructor (raw: Bytes, offset: nat)
      requires offset <= |raw|
      ensures Valid() && Rest() == raw[offset..] && this.raw == raw
    {
      this.raw := raw;
      this.offset := offset;
    }

    method Next(n: nat) returns (r: Result<Bytes>)
      requires Valid()
      modifies this
      ensures Did(Take(n, old(Rest())), r)
    {
      var end := offset + n;
      if end > |raw| {
        return Refused(Truncation);
      }
      assert raw[offset..][..n] == raw[offset..end] && raw[offset..][n..] == raw[end..];
      r := Got(raw[offset..end]);
      offset := end;
    }

    method NextId(valid: Id -> bool) returns (r: Result<Id>)
      requires Valid()
      modifies this
      ensures Did(TakeId(valid, old(Rest())), r)
    {
      var part := Next(32);
      match part {
        case Refused(error) => return Refused(error);
        case Got(id) => return if valid(id) then Got(id) else Refused(InvalidIdentifier);
      }
    }

    method NextLength() returns (r: Result<nat>)
      requires Valid()
      modifies this
      ensures Did(TakeLength(old(Rest())), r)
    {
      var part := Next(4);
      match part {
        case Refused(error) => return Refused(error);
        case Got(raw) => return Got(Value(B4, raw));
      }
    }

    method NextPage() returns (r: Result<Bytes>)
      requires Valid()
      modifies this
      ensures Did(ParsePage(old(Rest())), r)
    {
      var length := NextLength();
      if length.Refused? {
        return Refused(length.error);
      }
      if !(0 < length.value <= MAX_ARCHIVE_PAGE_BYTES) {
        return Refused(PageBound);
      }
      r := Next(length.value);
    }

    method NextPages(count: nat) returns (r: Result<seq<Bytes>>)
      requires Valid()
      modifies this
      ensures Did(ParsePages(count, old(Rest())), r)
    {
      var pages: seq<Bytes> := [];
      BehindNone(ParsePages(count, Rest()));
      for i := 0 to count
        invariant Valid()
        invariant ParsePages(count, old(Rest())) == Behind(pages, ParsePages(count - i, Rest()))
      {
        var page := NextPage();
        if page.Refused? {
          return Refused(page.error);
        }
        BehindOne(pages, page.value, ParsePages(count - i - 1, Rest()));
        pages := pages + [page.value];
      }
      assert pages + [] == pages;
      return Got(pages);
    }

    method NextArchive() returns (r: Result<Archive>)
      requires Valid()
      modifies this
      ensures Did(ParseArchive(old(Rest())), r)
    {
      var id := NextId(_ => true);
      if id.Refused? {
        return Refused(id.error);
      }
      var count := NextLength();
      if count.Refused? {
        return Refused(count.error);
      }
      if !(3 <= count.value <= MAX_PAGES) {
        return Refused(PageCount);
      }
      var pages := NextPages(count.value);
      if pages.Refused? {
        return Refused(pages.error);
      }
      return Got(Archive(id.value, pages.value));
    }
  }

  datatype Result<+T> = Got(value: T) | Refused(error: Error)

  /** A parse of later pages, with earlier pages put in front. */
  function Behind(pages: seq<Bytes>, later: Parsed<seq<Bytes>>): Parsed<seq<Bytes>> {
    if later.Ok? then Ok(pages + later.value, later.rest) else later
  }

  lemma BehindNone(later: Parsed<seq<Bytes>>)
    ensures Behind([], later) == later
  {
    if later.Ok? {
      assert [] + later.value == later.value;
    }
  }

  lemma BehindOne(pages: seq<Bytes>, page: Bytes, later: Parsed<seq<Bytes>>)
    ensures Behind(pages, Behind([page], later)) == Behind(pages + [page], later)
  {
    if later.Ok? {
      assert pages + ([page] + later.value) == (pages + [page]) + later.value;
    }
  }

  /** Accepts exactly the encodings of bounded fixtures, and returns the fixture. */
  method Decode(v: Validity, raw: Bytes) returns (r: Result<Fixture>)
    ensures r.Got? <==> Parse(v, raw).Ok?
    ensures r.Got? ==> Parse(v, raw) == Ok(r.value, [])
    ensures r.Refused? ==> Parse(v, raw) == Bad(r.error)
  {
    if |raw| > MAX_FIXTURE || |raw| < 8 || raw[..8] != MAGIC {
      return Refused(FrameBound);
    }
    var cursor := new Cursor(raw, 8);
    var namespace := cursor.NextId(_ => true);
    if namespace.Refused? { return Refused(namespace.error); }
    var room := cursor.NextId(v.room);
    if room.Refused? { return Refused(room.error); }
    var anchor := cursor.NextId(v.anchor);
    if anchor.Refused? { return Refused(anchor.error); }
    var account := cursor.NextId(v.key);
    if account.Refused? { return Refused(account.error); }
    var device := cursor.NextId(v.key);
    if device.Refused? { return Refused(device.error); }
    var a := cursor.NextArchive();
    if a.Refused? { return Refused(a.error); }
    var b := cursor.NextArchive();
    if b.Refused? { return Refused(b.error); }
    if cursor.offset != |raw| {
      return Refused(TrailingBytes);
    }
    return Got(Fixture(namespace.value, Context(room.value, anchor.value, account.value, device.value),
                       a.value, b.value));
  }
}
