/** The frame writer's binary PPM and the viewer's parser for it. */
module Ppm {
  import opened ByteStrings

  const INT_LIMIT := 0x8000_0000_0000_0000

  /** Four bytes a pixel, depth slices one after the other; format 2 is BGRA, every other one RGBA. */
  datatype Image = Image(width: nat, height: nat, depth: nat, format: nat, pixels: Bytes)

  predicate WellFormed(i: Image) {
    i.width > 0 && i.height > 0 && i.depth > 0 && |i.pixels| == 4 * (i.width * i.height * i.depth) < INT_LIMIT
  }

  /** The red, green and blue of pixel k. */
  function Rgb(i: Image, k: nat): Bytes
    requires 4 * k + 3 < |i.pixels|
  {
    var p := i.pixels;
    if i.format == 2 then [p[4 * k + 2], p[4 * k + 1], p[4 * k]] else [p[4 * k], p[4 * k + 1], p[4 * k + 2]]
  }

  function Body(i: Image, n: nat): (b: Bytes)
    requires 4 * n <= |i.pixels|
    ensures |b| == 3 * n
  {
    if n == 0 then [] else Body(i, n - 1) + Rgb(i, n - 1)
  }

  function Decimal(n: nat): (d: Bytes)
    ensures |d| > 0 && forall k :: 0 <= k < |d| ==> 48 <= d[k] <= 57
  {
    if n < 10 then [48 + n] else Decimal(n / 10) + [48 + n % 10]
  }

  const MAGIC: Bytes := [80, 54]
  const MAXIMUM: Bytes := [50, 53, 53]

  function Header(i: Image): Bytes {
    MAGIC + [10] + Decimal(i.width) + [32] + Decimal(i.height) + [10] + MAXIMUM + [10]
  }

  lemma BodyStep(prefix: Bytes, i: Image, n: nat, pixel: nat)
    requires pixel == 4 * n && pixel + 4 <= |i.pixels|
    ensures prefix + Body(i, n) + (if i.format == 2
        then [i.pixels[pixel + 2], i.pixels[pixel + 1], i.pixels[pixel]]
        else [i.pixels[pixel], i.pixels[pixel + 1], i.pixels[pixel + 2]]) == prefix + Body(i, n + 1)
  {
    assert Body(i, n + 1) == Body(i, n) + Rgb(i, n);
    hide Body;
  }

  /** The writer: the header, then three bytes for every four. */
  method WriteFrame(i: Image) returns (ppm: Bytes)
    requires |i.pixels| % 4 == 0
    ensures ppm == Header(i) + Body(i, |i.pixels| / 4)
  {
    ppm := Header(i);
    var pixel := 0;
    ghost var k := 0;
    assert Body(i, 0) == [];
    hide *;
    while pixel < |i.pixels|
      invariant pixel == 4 * k <= |i.pixels|
      invariant ppm == Header(i) + Body(i, k)
    {
      BodyStep(Header(i), i, k, pixel);
      if i.format == 2 {
        ppm := ppm + [i.pixels[pixel + 2], i.pixels[pixel + 1], i.pixels[pixel]];
      } else {
        ppm := ppm + [i.pixels[pixel], i.pixels[pixel + 1], i.pixels[pixel + 2]];
      }
      pixel, k := pixel + 4, k + 1;
    }
  }

  // ----- the parser -----

  predicate IsSpace(b: Byte) {
    b == 9 || b == 10 || b == 13 || b == 32
  }

  /** After separators and comments; a comment runs to its line's end. */
  function Skip(data: Bytes, c: nat): (r: nat)
    requires c <= |data|
    ensures c <= r <= |data|
    decreases |data| - c
  {
    if c < |data| && (data[c] == 35 || IsSpace(data[c])) then
      if data[c] == 35 then Skip(data, LineEnd(data, c + 1)) else Skip(data, c + 1)
    else c
  }

  function LineEnd(data: Bytes, c: nat): (r: nat)
    requires c <= |data|
    ensures c <= r <= |data|
    decreases |data| - c
  {
    if c < |data| && data[c] != 10 then LineEnd(data, c + 1) else c
  }

  function TokenEnd(data: Bytes, c: nat): (r: nat)
    requires c <= |data|
    ensures c <= r <= |data|
    decreases |data| - c
  {
    if c < |data| && !IsSpace(data[c]) && data[c] != 35 then TokenEnd(data, c + 1) else c
  }

  method SkipSeparators(data: Bytes, start: nat) returns (cursor: nat)
    requires start <= |data|
    ensures cursor == Skip(data, start)
  {
    cursor := start;
    while cursor < |data|
      invariant cursor <= |data| && Skip(data, cursor) == Skip(data, start)
      decreases |data| - cursor
    {
      var byte := data[cursor];
      if byte == 35 {
        ghost var hash := cursor;
        cursor := cursor + 1;
        while cursor < |data| && data[cursor] != 10
          invariant cursor <= |data| && LineEnd(data, cursor) == LineEnd(data, hash + 1)
        {
          cursor := cursor + 1;
        }
      } else if byte == 9 || byte == 10 || byte == 13 || byte == 32 {
        cursor := cursor + 1;
      } else {
        return;
      }
    }
  }

  /** A token and the cursor after it; none at the end of the data or with a byte outside ASCII. */
  datatype Token = Token(text: Option<Bytes>, cursor: nat)

  function NextToken(data: Bytes, c: nat): (t: Token)
    requires c <= |data|
    ensures c <= t.cursor <= |data|
  {
    var start := Skip(data, c);
    var end := TokenEnd(data, start);
    Token(if end > start && (forall k :: start <= k < end ==> data[k] < 128) then Some(data[start..end]) else None, end)
  }

  method ReadToken(data: Bytes, c: nat) returns (t: Token)
    requires c <= |data|
    ensures t == NextToken(data, c)
  {
    var cursor := SkipSeparators(data, c);
    var start := cursor;
    while cursor < |data| && !(IsSpace(data[cursor]) || data[cursor] == 35)
      invariant start <= cursor <= |data| && TokenEnd(data, cursor) == TokenEnd(data, start)
    {
      cursor := cursor + 1;
    }
    if cursor == start {
      return Token(None, cursor);
    }
    t := Token(if forall k :: start <= k < cursor ==> data[k] < 128 then Some(data[start..cursor]) else None, cursor);
  }

  /** The digits' value, if there is at least one character and all are digits. */
  function Digits(d: Bytes): Option<nat> {
    if d == [] then None
    else
      var last := d[|d| - 1];
      if !(48 <= last <= 57) then None
      else if |d| == 1 then Some(last - 48)
      else match Digits(d[..|d| - 1]) case None => None case Some(n) => Some(10 * n + (last - 48))
  }

  /** Int(token) restricted to the positive values the parser goes on with: an optional plus sign, decimal
      digits, no overflow of 64 bits. A minus sign gives no positive value. */
  function PositiveInt(d: Bytes): Option<nat> {
    var unsigned := if d != [] && d[0] == 43 then d[1..] else d;
    match Digits(unsigned)
    case None => None
    case Some(n) => if 0 < n < INT_LIMIT then Some(n) else None
  }

  datatype Parsed = Parsed(width: nat, height: nat, rgba: Bytes)

  function Opaque(rgb: Bytes, n: nat): (b: Bytes)
    requires 3 * n <= |rgb|
    ensures |b| == 4 * n
  {
    if n == 0 then [] else Opaque(rgb, n - 1) + [rgb[3 * n - 3], rgb[3 * n - 2], rgb[3 * n - 1], 255]
  }

  /** One separator after the last header token: a carriage return and newline together, a tab, a newline or
      a space. */
  function AfterHeader(data: Bytes, c: nat): (r: Option<nat>)
    requires c < |data|
    ensures r.Some? ==> r.value <= |data|
  {
    if data[c] == 13 && c + 1 < |data| && data[c + 1] == 10 then Some(c + 2)
    else if data[c] == 9 || data[c] == 10 || data[c] == 32 then Some(c + 1)
    else None
  }

  function Decode(data: Bytes): Option<Parsed> {
    var magic := NextToken(data, 0);
    if magic.text != Some(MAGIC) then None else DecodeWidth(data, magic.cursor)
  }

  function DecodeWidth(data: Bytes, c: nat): Option<Parsed>
    requires c <= |data|
  {
    var w := NextToken(data, c);
    if w.text.None? || PositiveInt(w.text.value).None? then None
    else DecodeHeight(data, w.cursor, PositiveInt(w.text.value).value)
  }

  function DecodeHeight(data: Bytes, c: nat, width: nat): Option<Parsed>
    requires c <= |data|
  {
    var h := NextToken(data, c);
    if h.text.None? || PositiveInt(h.text.value).None? then None
    else DecodeMaximum(data, h.cursor, width, PositiveInt(h.text.value).value)
  }

  function DecodeMaximum(data: Bytes, c: nat, width: nat, height: nat): Option<Parsed>
    requires c <= |data|
  {
    var m := NextToken(data, c);
    if m.text != Some(MAXIMUM) || m.cursor >= |data| then None else
    match AfterHeader(data, m.cursor)
    case None => None
    case Some(start) => Pixels(data[start..], width, height)
  }

  /** The overflow-checked count of pixels must account for every byte left. */
  function Pixels(rgb: Bytes, width: nat, height: nat): Option<Parsed> {
    var count := width * height;
    if count < INT_LIMIT && count * 3 < INT_LIMIT && count * 3 == |rgb|
    then Some(Parsed(width, height, Opaque(rgb, count))) else None
  }

  lemma OpaqueStep(done: Bytes, four: Bytes, rgb: Bytes, n: nat, pixel: nat)
    requires pixel == 3 * n && pixel + 3 <= |rgb| && done == Opaque(rgb, n)
    requires |four| == 4 && four[0] == rgb[pixel] && four[1] == rgb[pixel + 1] && four[2] == rgb[pixel + 2]
    requires four[3] == 255
    ensures done + four == Opaque(rgb, n + 1)
  {
    assert Opaque(rgb, n + 1) == Opaque(rgb, n) + [rgb[pixel], rgb[pixel + 1], rgb[pixel + 2], 255];
    hide Opaque;
    assert four == [rgb[pixel], rgb[pixel + 1], rgb[pixel + 2], 255];
  }

  lemma Joined(b: Bytes, n: nat)
    requires n + 4 <= |b|
    ensures b[..n + 4] == b[..n] + b[n..n + 4]
  {
  }

  /** The destination is filled in place, pixel by pixel. */
  method Expand(rgb: Bytes, n: nat) returns (rgba: Bytes)
    requires |rgb| == 3 * n
    ensures rgba == Opaque(rgb, n)
  {
    var destination := new Byte[4 * n];
    var pixel := 0;
    assert Opaque(rgb, 0) == [];
    hide *;
    while pixel < n
      invariant pixel <= n
      invariant destination[..4 * pixel] == Opaque(rgb, pixel)
    {
      destination[pixel * 4] := rgb[pixel * 3];
      destination[pixel * 4 + 1] := rgb[pixel * 3 + 1];
      destination[pixel * 4 + 2] := rgb[pixel * 3 + 2];
      destination[pixel * 4 + 3] := 255;
      OpaqueStep(destination[..4 * pixel], destination[4 * pixel..4 * pixel + 4], rgb, pixel, 3 * pixel);
      Joined(destination[..], 4 * pixel);
      pixel := pixel + 1;
    }
    assert destination[..] == destination[..4 * n];
    rgba := destination[..];
  }

  method DecodeFrame(data: Bytes) returns (r: Option<Parsed>)
    ensures r == Decode(data)
  {
    hide Opaque, Skip, TokenEnd, PositiveInt, NextToken;
    var magic := ReadToken(data, 0);
    if magic.text != Some(MAGIC) { return None; }
    var w := ReadToken(data, magic.cursor);
    if w.text.None? || PositiveInt(w.text.value).None? { return None; }
    var width := PositiveInt(w.text.value).value;
    var h := ReadToken(data, w.cursor);
    if h.text.None? || PositiveInt(h.text.value).None? { return None; }
    var height := PositiveInt(h.text.value).value;
    var m := ReadToken(data, h.cursor);
    if m.text != Some(MAXIMUM) || m.cursor >= |data| { return None; }
    var cursor := m.cursor;
    if data[cursor] == 13 && cursor + 1 < |data| && data[cursor + 1] == 10 {
      cursor := cursor + 2;
    } else if data[cursor] == 9 || data[cursor] == 10 || data[cursor] == 32 {
      cursor := cursor + 1;
    } else {
      return None;
    }
    var count := width * height;
    if count >= INT_LIMIT || count * 3 >= INT_LIMIT || count * 3 != |data| - cursor { return None; }
    var rgba := Expand(data[cursor..], count);
    r := Some(Parsed(width, height, rgba));
  }

  // ----- round trip -----

  lemma {:induction false} DigitsOfDecimal(n: nat)
    ensures Digits(Decimal(n)) == Some(n)
  {
    if n >= 10 {
      DigitsOfDecimal(n / 10);
      var d := Decimal(n);
      assert d[..|d| - 1] == Decimal(n / 10);
    }
  }

  lemma ParsesBack(n: nat)
    requires 0 < n < INT_LIMIT
    ensures PositiveInt(Decimal(n)) == Some(n)
  {
    DigitsOfDecimal(n);
  }

  predicate Ordinary(b: Byte) {
    !IsSpace(b) && b != 35 && b < 128
  }

  lemma {:induction false} TokenEndAt(data: Bytes, c: nat, end: nat)
    requires c <= end < |data| && IsSpace(data[end])
    requires forall k :: c <= k < end ==> Ordinary(data[k])
    ensures TokenEnd(data, c) == end
    decreases end - c
  {
    if c < end { TokenEndAt(data, c + 1, end); }
  }

  /** One token of ordinary characters after at most one space, ended by a space. */
  lemma TokenAt(data: Bytes, c: nat, start: nat, end: nat)
    requires c <= start <= c + 1 && start < end < |data| && (c < start ==> IsSpace(data[c]))
    requires IsSpace(data[end]) && forall k :: start <= k < end ==> Ordinary(data[k])
    ensures NextToken(data, c) == Token(Some(data[start..end]), end)
  {
    assert Ordinary(data[start]);
    assert Skip(data, c) == start;
    TokenEndAt(data, start, end);
  }

  lemma Middle(a: Bytes, b: Bytes, c: Bytes)
    ensures (a + b + c)[|a|..|a| + |b|] == b && (a + b + c)[|a| + |b|..] == c
  {
  }

  /** Reading one header field: the text before it, the field, the separator after it. */
  lemma FieldAt(data: Bytes, before: Bytes, field: Bytes, separator: Byte, after: Bytes, c: nat)
    requires data == before + field + ([separator] + after)
    requires IsSpace(separator) && field != [] && forall k :: 0 <= k < |field| ==> Ordinary(field[k])
    requires c == |before| || (c == |before| - 1 && IsSpace(before[c]))
    ensures NextToken(data, c) == Token(Some(field), |before| + |field|)
  {
    Middle(before, field, [separator] + after);
    var start, end := |before|, |before| + |field|;
    assert data[end] == data[end..][0] == separator;
    assert forall k :: start <= k < end ==> data[k] == data[start..end][k - start];
    TokenAt(data, c, start, end);
  }

  /** The header's four fields parse to the writer's numbers, whatever bytes follow. */
  lemma HeaderParses(i: Image, body: Bytes)
    requires 0 < i.width < INT_LIMIT && 0 < i.height < INT_LIMIT
    ensures var data := Header(i) + body;
      var w, h := NextToken(data, 2), NextToken(data, 3 + |Decimal(i.width)|);
      var m := NextToken(data, 4 + |Decimal(i.width)| + |Decimal(i.height)|);
      && NextToken(data, 0) == Token(Some(MAGIC), 2)
      && w == Token(Some(Decimal(i.width)), 3 + |Decimal(i.width)|)
      && h == Token(Some(Decimal(i.height)), 4 + |Decimal(i.width)| + |Decimal(i.height)|)
      && m == Token(Some(MAXIMUM), |Header(i)| - 1)
      && data[|Header(i)| - 1] == 10 && data[|Header(i)|..] == body
  {
    var data := Header(i) + body;
    var w, h := Decimal(i.width), Decimal(i.height);
    hide Decimal, NextToken;
    var b1 := MAGIC + [10];
    var b2 := b1 + w + [32];
    var b3 := b2 + h + [10];
    assert data == [] + MAGIC + ([10] + (w + [32] + h + [10] + MAXIMUM + [10] + body));
    FieldAt(data, [], MAGIC, 10, w + [32] + h + [10] + MAXIMUM + [10] + body, 0);
    assert data == b1 + w + ([32] + (h + [10] + MAXIMUM + [10] + body));
    FieldAt(data, b1, w, 32, h + [10] + MAXIMUM + [10] + body, 2);
    assert data == b2 + h + ([10] + (MAXIMUM + [10] + body));
    FieldAt(data, b2, h, 10, MAXIMUM + [10] + body, 3 + |w|);
    assert data == b3 + MAXIMUM + ([10] + body);
    FieldAt(data, b3, MAXIMUM, 10, body, 4 + |w| + |h|);
  }

  lemma ProductBounds(w: nat, h: nat, d: nat)
    requires w > 0 && h > 0 && d > 0
    ensures w <= w * h && h <= w * h && w * h <= w * h * d && (w * h == w * h * d <==> d == 1)
  {
    Larger(w, h);
    Larger(h, w);
    Larger(w * h, d);
  }

  lemma Larger(a: nat, b: nat)
    requires a > 0 && b > 0
    ensures a <= a * b && (a == a * b <==> b == 1)
  {
  }

  lemma WidthStep(data: Bytes, c: nat, n: nat, end: nat)
    requires 0 < n < INT_LIMIT && c <= |data|
    requires NextToken(data, c) == Token(Some(Decimal(n)), end)
    ensures DecodeWidth(data, c) == DecodeHeight(data, end, n)
  {
    hide NextToken, PositiveInt, Decimal, DecodeHeight;
    ParsesBack(n);
  }

  lemma HeightStep(data: Bytes, c: nat, width: nat, n: nat, end: nat)
    requires 0 < n < INT_LIMIT && c <= |data|
    requires NextToken(data, c) == Token(Some(Decimal(n)), end)
    ensures DecodeHeight(data, c, width) == DecodeMaximum(data, end, width, n)
  {
    hide NextToken, PositiveInt, Decimal, DecodeMaximum;
    ParsesBack(n);
  }

  lemma MaximumStep(data: Bytes, c: nat, width: nat, height: nat, end: nat)
    requires c <= |data| && end < |data| && data[end] == 10
    requires NextToken(data, c) == Token(Some(MAXIMUM), end)
    ensures DecodeMaximum(data, c, width, height) == Pixels(data[end + 1..], width, height)
  {
    hide NextToken, Pixels;
  }

  /** Past the header only the pixel bytes matter. */
  lemma DecodeWritten(i: Image, body: Bytes)
    requires 0 < i.width < INT_LIMIT && 0 < i.height < INT_LIMIT
    ensures Decode(Header(i) + body) == Pixels(body, i.width, i.height)
  {
    hide Pixels, NextToken, Decimal, DecodeWidth, DecodeHeight, DecodeMaximum;
    HeaderParses(i, body);
    var data, w, h := Header(i) + body, |Decimal(i.width)|, |Decimal(i.height)|;
    hide Header;
    WidthStep(data, 2, i.width, 3 + w);
    HeightStep(data, 3 + w, i.width, i.height, 4 + w + h);
    MaximumStep(data, 4 + w + h, i.width, i.height, |Header(i)| - 1);
  }

  /** What the viewer makes of a written frame: the same size and pixels exactly when the image has one
      depth slice. A deeper image writes more pixels than its header announces and is not shown at all. */
  lemma RoundTripIff(i: Image)
    requires WellFormed(i)
    ensures var n := i.width * i.height; var data := Header(i) + Body(i, |i.pixels| / 4);
      && (i.depth == 1 ==> Decode(data) == Some(Parsed(i.width, i.height, Opaque(Body(i, n), n))))
      && (i.depth != 1 ==> Decode(data) == None)
  {
    ProductBounds(i.width, i.height, i.depth);
    PixelsIff(i, i.width * i.height, i.width * i.height * i.depth);
    hide *;
    DecodeWritten(i, Body(i, |i.pixels| / 4));
  }

  lemma PixelsIff(i: Image, n: nat, all: nat)
    requires n == i.width * i.height && n <= all && |i.pixels| == 4 * all < INT_LIMIT
    ensures Pixels(Body(i, |i.pixels| / 4), i.width, i.height)
         == if n == all then Some(Parsed(i.width, i.height, Opaque(Body(i, n), n))) else None
  {
    assert |i.pixels| / 4 == all;
    hide Opaque, Body;
  }

  lemma SliceOfSum(a: Bytes, b: Bytes, from: nat, to: nat)
    requires from <= to <= |a|
    ensures (a + b)[from..to] == a[from..to] && (a + b)[|a|..] == b
  {
  }

  lemma {:induction false} BodyAt(i: Image, n: nat, k: nat)
    requires 4 * n <= |i.pixels| && k < n
    ensures Body(i, n)[3 * k..3 * k + 3] == Rgb(i, k)
  {
    assert Body(i, n) == Body(i, n - 1) + Rgb(i, n - 1);
    hide Body, Rgb;
    if k < n - 1 {
      BodyAt(i, n - 1, k);
      SliceOfSum(Body(i, n - 1), Rgb(i, n - 1), 3 * k, 3 * k + 3);
    } else {
      SliceOfSum(Body(i, n - 1), Rgb(i, n - 1), 0, 0);
      assert Body(i, n)[3 * k..] == Body(i, n)[3 * k..3 * k + 3];
    }
  }

  lemma {:induction false} OpaqueAt(rgb: Bytes, n: nat, k: nat)
    requires 3 * n <= |rgb| && k < n
    ensures Opaque(rgb, n)[4 * k..4 * k + 4] == rgb[3 * k..3 * k + 3] + [255]
  {
    if k < n - 1 {
      OpaqueAt(rgb, n - 1, k);
      assert Opaque(rgb, n)[4 * k..4 * k + 4] == Opaque(rgb, n - 1)[4 * k..4 * k + 4];
    }
  }

  /** Pixel k comes back as the image's red, green and blue with full alpha, whatever its bytes look like. */
  lemma PixelRoundTrip(i: Image, k: nat)
    requires WellFormed(i) && i.depth == 1 && k < i.width * i.height
    ensures var data := Header(i) + Body(i, |i.pixels| / 4);
      Decode(data).Some? && Decode(data).value.width == i.width && Decode(data).value.height == i.height
      && |Decode(data).value.rgba| == |i.pixels|
      && Decode(data).value.rgba[4 * k..4 * k + 4] == Shown(i.format, i.pixels[4 * k..4 * k + 4])
  {
    var n := i.width * i.height;
    RoundTripIff(i);
    BodyAt(i, n, k);
    OpaqueAt(Body(i, n), n, k);
    ShownIs(i, k);
    hide Decode, Header, Shown, Rgb, Body, Opaque;
  }

  lemma ShownIs(i: Image, k: nat)
    requires 4 * k + 3 < |i.pixels|
    ensures Rgb(i, k) + [255] == Shown(i.format, i.pixels[4 * k..4 * k + 4])
  {
  }

  /** The viewer's red, green, blue and alpha for the four bytes of a pixel: format 2 has blue first. */
  function Shown(format: nat, pixel: Bytes): Bytes
    requires |pixel| == 4
  {
    if format == 2 then [pixel[2], pixel[1], pixel[0], 255] else pixel[..3] + [255]
  }

  /** A concrete image the viewer cannot show: one pixel wide and high, two slices deep. */
  lemma DeepImageLost()
    ensures var i := Image(1, 1, 2, 1, [1, 2, 3, 4, 5, 6, 7, 8]);
      WellFormed(i) && Decode(Header(i) + Body(i, 2)) == None
  {
    RoundTripIff(Image(1, 1, 2, 1, [1, 2, 3, 4, 5, 6, 7, 8]));
  }
}
