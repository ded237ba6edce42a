/** Base64 with the URL alphabet and no padding (section 5 of RFC 4648). */
module Base64Url {
  import opened ByteStrings
  import opened Options

  function Letter(v: nat): byte
    requires v < 64
  {
    if v < 26 then (65 + v) as byte
    else if v < 52 then (71 + v) as byte
    else if v < 62 then (v - 4) as byte
    else if v == 62 then DASH
    else 95
  }

  function Value(b: byte): (v: Option<nat>)
    ensures v.Some? ==> v.value < 64
  {
    if 65 <= b <= 90 then Some(b as nat - 65)
    else if 97 <= b <= 122 then Some(b as nat - 71)
    else if 48 <= b <= 57 then Some(b as nat + 4)
    else if b == DASH then Some(62)
    else if b == 95 then Some(63)
    else None
  }

  lemma ValueOfLetter(v: nat)
    requires v < 64
    ensures Value(Letter(v)) == Some(v) && !IsBreak(Letter(v))
  {
  }

  predicate IsBreak(b: byte) {
    b == 10 || b == 13
  }

  function Encode(b: Bytes): Bytes {
    if b == [] then []
    else if |b| == 1 then
      var x := b[0] as nat;
      [Letter(x / 4), Letter(x % 4 * 16)]
    else if |b| == 2 then
      var x, y := b[0] as nat, b[1] as nat;
      [Letter(x / 4), Letter(x % 4 * 16 + y / 16), Letter(y % 16 * 4)]
    else
      Quad(b[0], b[1], b[2]) + Encode(b[3..])
  }

  function Quad(a: byte, b: byte, c: byte): (q: Bytes)
    ensures |q| == 4
  {
    var x, y, z := a as nat, b as nat, c as nat;
    [Letter(x / 4), Letter(x % 4 * 16 + y / 16), Letter(y % 16 * 4 + z / 64), Letter(z % 64)]
  }

  /** Text without line breaks; bits past the last byte are ignored. */
  function Decode(t: Bytes): Option<Bytes> {
    if t == [] then Some([])
    else if |t| == 1 || Value(t[0]).None? || Value(t[1]).None? then None
    else
      var v, w := Value(t[0]).value, Value(t[1]).value;
      var first := (v * 4 + w / 16) as byte;
      if |t| == 2 then Some([first])
      else if Value(t[2]).None? then None
      else
        var x := Value(t[2]).value;
        var second := (w % 16 * 16 + x / 4) as byte;
        if |t| == 3 then Some([first, second])
        else if Value(t[3]).None? then None
        else
          var rest := Decode(t[4..]);
          if rest.None? then None else Some([first, second, (x % 4 * 64 + Value(t[3]).value) as byte] + rest.value)
  }

  function WithoutBreaks(t: Bytes): Bytes {
    if t == [] then [] else (if IsBreak(t[0]) then [] else [t[0]]) + WithoutBreaks(t[1..])
  }

  /** Line breaks in the text are skipped. */
  function DecodeString(t: Bytes): Option<Bytes> {
    Decode(WithoutBreaks(t))
  }

  /** Two bits of one byte and four of the next share a letter. */
  lemma TwoAndFour(x: nat, high: nat)
    requires high < 16
    ensures x % 4 * 16 + high < 64 && (x % 4 * 16 + high) / 16 == x % 4 && (x % 4 * 16 + high) % 16 == high
  {
  }

  /** Four bits of one byte and two of the next share a letter. */
  lemma FourAndTwo(y: nat, high: nat)
    requires high < 4
    ensures y % 16 * 4 + high < 64 && (y % 16 * 4 + high) / 4 == y % 16 && (y % 16 * 4 + high) % 4 == high
  {
  }

  lemma QuadDecodes(a: byte, b: byte, c: byte, rest: Bytes)
    ensures Decode(Quad(a, b, c) + rest) == if Decode(rest).None? then None else Some([a, b, c] + Decode(rest).value)
  {
    hide Letter, Value, IsBreak;
    var x, y, z := a as nat, b as nat, c as nat;
    TwoAndFour(x, y / 16);
    FourAndTwo(y, z / 64);
    var v, w, u := x % 4 * 16 + y / 16, y % 16 * 4 + z / 64, z % 64;
    ValueOfLetter(x / 4);
    ValueOfLetter(v);
    ValueOfLetter(w);
    ValueOfLetter(u);
    var t := Quad(a, b, c) + rest;
    assert t[..4] == Quad(a, b, c) && t[4..] == rest;
    assert Value(t[0]) == Some(x / 4) && Value(t[1]) == Some(v) && Value(t[2]) == Some(w) && Value(t[3]) == Some(u);
    assert x / 4 * 4 + v / 16 == x && v % 16 * 16 + w / 4 == y && w % 4 * 64 + u == z;
  }

  lemma OneDecodes(a: byte)
    ensures Decode(Encode([a])) == Some([a])
  {
    hide Letter, Value, IsBreak;
    var x := a as nat;
    TwoAndFour(x, 0);
    ValueOfLetter(x / 4);
    ValueOfLetter(x % 4 * 16);
    assert x / 4 * 4 + x % 4 * 16 / 16 == x;
  }

  lemma TwoDecode(a: byte, b: byte)
    ensures Decode(Encode([a, b])) == Some([a, b])
  {
    hide Letter, Value, IsBreak;
    var x, y := a as nat, b as nat;
    TwoAndFour(x, y / 16);
    FourAndTwo(y, 0);
    var v, w := x % 4 * 16 + y / 16, y % 16 * 4;
    ValueOfLetter(x / 4);
    ValueOfLetter(v);
    ValueOfLetter(w);
    var t := Encode([a, b]);
    assert t == [Letter(x / 4), Letter(v), Letter(w)];
    assert x / 4 * 4 + v / 16 == x && v % 16 * 16 + w / 4 == y;
  }

  lemma {:induction false} EncodeDecodes(b: Bytes)
    ensures Decode(Encode(b)) == Some(b)
  {
    if |b| == 1 {
      OneDecodes(b[0]);
      assert b == [b[0]];
    } else if |b| == 2 {
      TwoDecode(b[0], b[1]);
      assert b == [b[0], b[1]];
    } else if b != [] {
      hide Quad, Decode;
      EncodeDecodes(b[3..]);
      QuadDecodes(b[0], b[1], b[2], Encode(b[3..]));
      assert b == [b[0], b[1], b[2]] + b[3..];
    }
  }

  lemma {:induction false} EncodeHasNoBreaks(b: Bytes)
    ensures forall i | 0 <= i < |Encode(b)| :: !IsBreak(Encode(b)[i])
    ensures 3 * |Encode(b)| <= 4 * |b| + 2 && (b != [] ==> Encode(b) != [])
  {
    if |b| >= 3 { EncodeHasNoBreaks(b[3..]); }
  }

  lemma {:induction false} NoBreaksToSkip(t: Bytes)
    requires forall i | 0 <= i < |t| :: !IsBreak(t[i])
    ensures WithoutBreaks(t) == t
  {
    if t != [] { NoBreaksToSkip(t[1..]); }
  }

  /** Whatever was encoded is decoded back. */
  lemma RoundTrip(b: Bytes)
    ensures DecodeString(Encode(b)) == Some(b)
  {
    EncodeHasNoBreaks(b);
    NoBreaksToSkip(Encode(b));
    EncodeDecodes(b);
  }
}

/** The service's listing call: pages named by opaque tokens. */
module AuditListing {
  import opened ByteStrings
  import opened Options
  import opened Sorting
  import opened AuditStore
  import opened AuditPaging
  import Base64Url

  const DEFAULT_PAGE: nat := 50
  const MAX_PAGE: nat := 200
  const MAX_TOKEN: nat := 256

  ghost predicate Int64(n: int) {
    -0x8000_0000_0000_0000 <= n < 0x8000_0000_0000_0000
  }

  ghost predicate Fits(c: Cursor) {
    Int64(c.occurTime) && Int64(c.sequence)
  }

  const COMMA: byte := 44

  /** Two numbers between fixed texts. */
  function Written(open: Bytes, m: int, middle: Bytes, n: int, close: Bytes): Bytes {
    open + (Decimal(m) + [COMMA] + (middle + (Decimal(n) + close)))
  }

  /** The cursor as the encoder writes it: `{"t":…,"s":…}`. */
  function Json(c: Cursor): Bytes {
    Written(Ascii("{\"t\":"), c.occurTime, Ascii("\"s\":"), c.sequence, Ascii("}"))
  }

  /** The JSON decoder reads what the encoder wrote; nothing is assumed of what it makes of other text. */
  ghost predicate Reads(unmarshal: Bytes -> Option<Cursor>) {
    forall c | Fits(c) :: unmarshal(Json(c)) == Some(c)
  }

  lemma WrittenDetermines(open: Bytes, middle: Bytes, close: Bytes, a: Cursor, b: Cursor)
    requires Written(open, a.occurTime, middle, a.sequence, close) == Written(open, b.occurTime, middle, b.sequence, close)
    ensures a == b
  {
    hide Decimal;
    var x, y := middle + (Decimal(a.sequence) + close), middle + (Decimal(b.sequence) + close);
    CutEqual(open, Decimal(a.occurTime) + [COMMA] + x, open, Decimal(b.occurTime) + [COMMA] + y);
    DecimalHasNoComma(a.occurTime);
    DecimalHasNoComma(b.occurTime);
    CutAtMark(Decimal(a.occurTime), x, Decimal(b.occurTime), y, COMMA);
    CutEqual(middle, Decimal(a.sequence) + close, middle, Decimal(b.sequence) + close);
    CutEqual(Decimal(a.sequence), close, Decimal(b.sequence), close);
    DecimalInjective(a.occurTime, b.occurTime);
    DecimalInjective(a.sequence, b.sequence);
  }

  lemma DecimalHasNoComma(n: int)
    ensures COMMA !in Decimal(n)
  {
  }

  /** Different cursors are written differently, so there is such a decoder. */
  lemma JsonDetermines(a: Cursor, b: Cursor)
    requires Json(a) == Json(b)
    ensures a == b
  {
    hide Written;
    WrittenDetermines(Ascii("{\"t\":"), Ascii("\"s\":"), Ascii("}"), a, b);
  }

  function EncodeToken(c: Option<Cursor>): Bytes {
    if c.None? then [] else Base64Url.Encode(Json(c.value))
  }

  /** The cursor a token stands for (none for the empty one), unless the token is not valid. */
  function DecodeToken(unmarshal: Bytes -> Option<Cursor>, token: Bytes): Option<Option<Cursor>> {
    if token == [] then Some(None)
    else
      var data := Base64Url.DecodeString(token);
      if data.None? || |token| > MAX_TOKEN then None
      else
        var t := unmarshal(data.value);
        if t.None? || t.value.sequence < 1 then None else Some(t)
  }

  function Power10(k: nat): nat {
    if k == 0 then 1 else 10 * Power10(k - 1)
  }

  lemma {:induction false} DigitsLength(n: nat, k: nat)
    requires k > 0 && n < Power10(k)
    ensures |Digits(n)| <= k
  {
    if n >= 10 { DigitsLength(n / 10, k - 1); }
  }

  lemma JsonLength(c: Cursor)
    requires Fits(c)
    ensures 0 < |Json(c)| <= 51
  {
    assert Power10(4) == 10_000 && Power10(8) == 10_000 * Power10(4);
    assert Power10(12) == 10_000 * Power10(8) && Power10(16) == 10_000 * Power10(12);
    assert Power10(19) == 1_000 * Power10(16);
    DigitsLength(if c.occurTime < 0 then -c.occurTime else c.occurTime, 19);
    DigitsLength(if c.sequence < 0 then -c.sequence else c.sequence, 19);
  }

  /** A cursor's token is accepted exactly when its sequence is one an event can have, and then it stands for that cursor. */
  lemma TokenRoundTripIff(unmarshal: Bytes -> Option<Cursor>, c: Cursor)
    requires Reads(unmarshal) && Fits(c)
    ensures EncodeToken(Some(c)) != []
    ensures DecodeToken(unmarshal, EncodeToken(Some(c))) == if c.sequence >= 1 then Some(Some(c)) else None
  {
    hide Json, Base64Url.Encode, Base64Url.DecodeString;
    JsonLength(c);
    Base64Url.RoundTrip(Json(c));
    Base64Url.EncodeHasNoBreaks(Json(c));
    assert unmarshal(Json(c)) == Some(c);
  }

  /** One call: the page after the token's cursor, and the token of the page's own. */
  ghost predicate Serves(unmarshal: Bytes -> Option<Cursor>, rows: seq<Row>, f: Filter, size: nat, token: Bytes,
                         page: seq<Row>, nextToken: Bytes) {
    && DecodeToken(unmarshal, token).Some?
    && exists next :: nextToken == EncodeToken(next) && IsPage(rows, f, DecodeToken(unmarshal, token).value, size, page, next)
  }

  function SizeOf(pageSize: nat): nat {
    if pageSize == 0 then DEFAULT_PAGE else pageSize
  }

  /** Refuses a page size out of range or a token that is not valid; otherwise serves the page. */
  method ListEvents(unmarshal: Bytes -> Option<Cursor>, rows: seq<Row>, f: Filter, pageSize: int, token: Bytes)
    returns (ok: bool, page: seq<Row>, nextToken: Bytes)
    requires OneSequenceEach(rows)
    ensures ok <==> 0 <= pageSize <= MAX_PAGE && DecodeToken(unmarshal, token).Some?
    ensures ok ==> Serves(unmarshal, rows, f, SizeOf(pageSize), token, page, nextToken)
  {
    hide IsPage, DecodeToken, EncodeToken;
    ok, page, nextToken := false, [], [];
    if pageSize < 0 || pageSize > MAX_PAGE {
      return;
    }
    var after := DecodeToken(unmarshal, token);
    if after.None? {
      return;
    }
    var next;
    page, next := List(rows, f, after.value, SizeOf(pageSize));
    ok, nextToken := true, EncodeToken(next);
  }

  /** A client that passes each page's token on until there is none; `tables[i]` is the table when page `i` was read. */
  ghost predicate FollowsTokens(unmarshal: Bytes -> Option<Cursor>, tables: seq<seq<Row>>, f: Filter, size: nat,
                                pages: seq<seq<Row>>, tokens: seq<Bytes>) {
    && |tables| == |pages| > 0 && |tokens| == |pages| + 1
    && (forall i | 0 <= i < |pages| :: Serves(unmarshal, tables[i], f, size, tokens[i], pages[i], tokens[i + 1]))
    && (forall i, j | 0 <= i < j < |pages| :: tables[i] <= tables[j])
    && (forall i | 1 <= i < |pages| :: tokens[i] != [])
    && tokens[0] == tokens[|pages|] == []
  }

  /** Stored events have positive sequences, and their columns are 64 bits wide. */
  ghost predicate Storable(rows: seq<Row>) {
    forall r | r in rows :: Fits(KeyOf(r)) && r.stamped.sequence >= 1
  }

  /** The next page's token stands for the cursor this page ended with. */
  lemma TokenIsCursor(unmarshal: Bytes -> Option<Cursor>, rows: seq<Row>, f: Filter, size: nat, token: Bytes, page: seq<Row>, nextToken: Bytes)
    requires Reads(unmarshal) && Storable(rows) && Serves(unmarshal, rows, f, size, token, page, nextToken)
    ensures var after, next := DecodeToken(unmarshal, token), DecodeToken(unmarshal, nextToken);
            && after.Some? && next.Some? && (next.value.None? <==> nextToken == [])
            && IsPage(rows, f, after.value, size, page, next.value)
  {
    hide Reads, Matches, Below, NewestFirst, Base64Url.Encode, Base64Url.DecodeString;
    var next :| nextToken == EncodeToken(next) && IsPage(rows, f, DecodeToken(unmarshal, token).value, size, page, next);
    if next.Some? {
      assert page[size - 1] in page;
      TokenRoundTripIff(unmarshal, next.value);
    }
  }

  /** The cursor a token stands for. */
  ghost function CursorOf(unmarshal: Bytes -> Option<Cursor>, token: Bytes): Option<Cursor> {
    var c := DecodeToken(unmarshal, token);
    if c.None? then None else c.value
  }

  lemma FollowsCursors(unmarshal: Bytes -> Option<Cursor>, tables: seq<seq<Row>>, f: Filter, size: nat, pages: seq<seq<Row>>, tokens: seq<Bytes>)
    returns (cursors: seq<Option<Cursor>>)
    requires Reads(unmarshal) && FollowsTokens(unmarshal, tables, f, size, pages, tokens) && forall i | 0 <= i < |tables| :: Storable(tables[i])
    ensures Follows(tables, f, size, pages, cursors) && cursors[0].None?
  {
    hide Reads, DecodeToken, IsPage, Serves, Storable;
    NoToken(unmarshal);
    cursors := seq(|tokens|, i requires 0 <= i < |tokens| => CursorOf(unmarshal, tokens[i]));
    forall i | 0 <= i < |pages| ensures IsPage(tables[i], f, cursors[i], size, pages[i], cursors[i + 1]) {
      TokenIsCursor(unmarshal, tables[i], f, size, tokens[i], pages[i], tokens[i + 1]);
    }
    forall i | 1 <= i <= |pages| ensures cursors[i].None? <==> tokens[i] == [] {
      var k := i - 1;
      TokenIsCursor(unmarshal, tables[k], f, size, tokens[k], pages[k], tokens[k + 1]);
    }
  }

  lemma NoToken(unmarshal: Bytes -> Option<Cursor>)
    ensures DecodeToken(unmarshal, []) == Some(None)
  {
  }

  /** Following the tokens to the last page returns no event twice, newest first, and the matching events that existed at
      the start exactly as one query would have, whatever was appended meanwhile. */
  lemma FollowingTokensReturnsEachOnce(unmarshal: Bytes -> Option<Cursor>, tables: seq<seq<Row>>, f: Filter, size: nat,
                                       pages: seq<seq<Row>>, tokens: seq<Bytes>)
    requires Reads(unmarshal) && FollowsTokens(unmarshal, tables, f, size, pages, tokens)
    requires OneSequenceEach(tables[0]) && forall i | 0 <= i < |tables| :: Storable(tables[i])
    ensures NewestFirst(Concat(pages)) && Distinct(Concat(pages))
    ensures Among(Concat(pages), tables[0]) == Sort(Select(tables[0], f, None), NewerOrSame)
  {
    hide Reads, FollowsTokens, Follows, Storable, NewestFirst, Distinct, Among, Select, Sort;
    var cursors := FollowsCursors(unmarshal, tables, f, size, pages, tokens);
    FollowingReturnsEachOnce(tables, f, size, pages, cursors);
  }
}
