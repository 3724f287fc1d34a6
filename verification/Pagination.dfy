/** Offset cursors and pages: `handler/pagination.go`, with the unpadded base64url alphabet of
    section 5 of RFC 4648 and the decimal text inside it. */
module Pagination {
  import opened Prelude

  type sextet = x: nat | x < 64

  const MAX_INT := 0x7FFF_FFFF_FFFF_FFFF

  // ---- base64url without padding ----

  function Letter(v: sextet): char {
    if v < 26 then ('A' as int + v) as char
    else if v < 52 then ('a' as int + (v - 26)) as char
    else if v < 62 then ('0' as int + (v - 52)) as char
    else if v == 62 then '-' else '_'
  }

  function Sextet(c: char): Option<sextet> {
    if 'A' <= c <= 'Z' then Some(c as int - 'A' as int)
    else if 'a' <= c <= 'z' then Some(c as int - 'a' as int + 26)
    else if '0' <= c <= '9' then Some(c as int - '0' as int + 52)
    else if c == '-' then Some(62) else if c == '_' then Some(63) else None
  }

  lemma LetterRoundTrip(v: sextet)
    ensures Sextet(Letter(v)) == Some(v) && Letter(v) != '\r' && Letter(v) != '\n'
  {
  }

  // How three bytes spread over four sextets, and back.

  function Sextet0(a: byte): sextet { a / 4 }
  function Sextet1(a: byte, b: byte): sextet { a % 4 * 16 + b / 16 }
  function Sextet2(b: byte, c: byte): sextet { b % 16 * 4 + c / 64 }
  function Sextet3(c: byte): sextet { c % 64 }

  function Byte0(p: sextet, q: sextet): byte { p as int * 4 + q / 16 }
  function Byte1(q: sextet, r: sextet): byte { q as int % 16 * 16 + r / 4 }
  function Byte2(r: sextet, s: sextet): byte { r as int % 4 * 64 + s }

  lemma SpreadAndBack(a: byte, b: byte, c: byte)
    ensures Byte0(Sextet0(a), Sextet1(a, b)) == a
    ensures Byte1(Sextet1(a, b), Sextet2(b, c)) == b
    ensures Byte2(Sextet2(b, c), Sextet3(c)) == c
  {
  }

  /** The four sextets of three bytes are the digits of the same number, base 64 and base 256. */
  lemma SpreadKeepsNumber(a: byte, b: byte, c: byte)
    ensures ((Sextet0(a) * 64 + Sextet1(a, b)) * 64 + Sextet2(b, c)) * 64 + Sextet3(c) == (a * 256 + b) * 256 + c
  {
    assert a == 4 * (a / 4) + a % 4 && b == 16 * (b / 16) + b % 16 && c == 64 * (c / 64) + c % 64;
  }

  /** Three bytes as four sextets, two as three, one as two. */
  function ToSextets(data: seq<byte>): seq<sextet> {
    if |data| == 0 then []
    else if |data| == 1 then [Sextet0(data[0]), Sextet1(data[0], 0)]
    else if |data| == 2 then [Sextet0(data[0]), Sextet1(data[0], data[1]), Sextet2(data[1], 0)]
    else
      [Sextet0(data[0]), Sextet1(data[0], data[1]), Sextet2(data[1], data[2]), Sextet3(data[2])] + ToSextets(data[3..])
  }

  /** A lone sextet at the end is an error; unused low bits of the last one are ignored. */
  function FromSextets(v: seq<sextet>): Option<seq<byte>> {
    if |v| == 0 then Some([])
    else if |v| == 1 then None
    else if |v| == 2 then Some([Byte0(v[0], v[1])])
    else if |v| == 3 then Some([Byte0(v[0], v[1]), Byte1(v[1], v[2])])
    else
      var rest := FromSextets(v[4..]);
      if rest.None? then None
      else Some([Byte0(v[0], v[1]), Byte1(v[1], v[2]), Byte2(v[2], v[3])] + rest.value)
  }

  lemma FullGroupDecodes(p: sextet, q: sextet, r: sextet, s: sextet, v: seq<sextet>)
    requires FromSextets(v).Some?
    ensures FromSextets([p, q, r, s] + v) == Some([Byte0(p, q), Byte1(q, r), Byte2(r, s)] + FromSextets(v).value)
  {
    assert ([p, q, r, s] + v)[4..] == v;
  }

  /** The four sextets of three bytes in front of any others. */
  lemma GroupBack(a: byte, b: byte, c: byte, v: seq<sextet>, rest: seq<byte>)
    requires FromSextets(v) == Some(rest)
    ensures FromSextets([Sextet0(a), Sextet1(a, b), Sextet2(b, c), Sextet3(c)] + v) == Some([a, b, c] + rest)
  {
    SpreadAndBack(a, b, c);
    FullGroupDecodes(Sextet0(a), Sextet1(a, b), Sextet2(b, c), Sextet3(c), v);
  }

  lemma ShortGroupsDecode(p: sextet, q: sextet, r: sextet)
    ensures FromSextets([p, q]) == Some([Byte0(p, q)])
    ensures FromSextets([p, q, r]) == Some([Byte0(p, q), Byte1(q, r)])
  {
  }

  lemma OneByteGroup(a: byte)
    ensures FromSextets([Sextet0(a), Sextet1(a, 0)]) == Some([Byte0(Sextet0(a), Sextet1(a, 0))])
  {
    ShortGroupsDecode(Sextet0(a), Sextet1(a, 0), 0);
  }

  lemma OneBack(a: byte)
    ensures FromSextets([Sextet0(a), Sextet1(a, 0)]) == Some([a])
  {
    SpreadAndBack(a, 0, 0);
    OneByteGroup(a);
  }

  lemma TwoBack(a: byte, b: byte)
    ensures FromSextets([Sextet0(a), Sextet1(a, b), Sextet2(b, 0)]) == Some([a, b])
  {
    SpreadAndBack(a, b, 0);
    ShortGroupsDecode(Sextet0(a), Sextet1(a, b), Sextet2(b, 0));
  }

  lemma ShortToSextets(data: seq<byte>)
    requires |data| < 3
    ensures |data| == 1 ==> data == [data[0]] && ToSextets(data) == [Sextet0(data[0]), Sextet1(data[0], 0)]
    ensures |data| == 2 ==> data == [data[0], data[1]] &&
                            ToSextets(data) == [Sextet0(data[0]), Sextet1(data[0], data[1]), Sextet2(data[1], 0)]
  {
  }

  lemma ShortRoundTrip(data: seq<byte>)
    requires |data| < 3
    ensures FromSextets(ToSextets(data)) == Some(data)
  {
    ShortToSextets(data);
    if |data| == 1 {
      OneBack(data[0]);
    } else if |data| == 2 {
      TwoBack(data[0], data[1]);
    }
  }

  lemma {:induction false} SextetsRoundTrip(data: seq<byte>)
    ensures FromSextets(ToSextets(data)) == Some(data)
  {
    if |data| < 3 {
      ShortRoundTrip(data);
    } else {
      SextetsRoundTrip(data[3..]);
      GroupBack(data[0], data[1], data[2], ToSextets(data[3..]), data[3..]);
      assert data == [data[0], data[1], data[2]] + data[3..];
    }
  }

  function Spell(v: seq<sextet>): (s: string)
    ensures |s| == |v|
  {
    seq(|v|, i requires 0 <= i < |v| => Letter(v[i]))
  }

  /** Line breaks are skipped, as Go's decoder does; any other foreign character is an error. */
  function Unspell(s: string): Option<seq<sextet>> {
    if s == [] then Some([])
    else if s[0] == '\r' || s[0] == '\n' then Unspell(s[1..])
    else
      var rest := Unspell(s[1..]);
      if Sextet(s[0]).None? || rest.None? then None else Some([Sextet(s[0]).value] + rest.value)
  }

  lemma {:induction false} SpellRoundTrip(v: seq<sextet>)
    ensures Unspell(Spell(v)) == Some(v)
  {
    if v != [] {
      LetterRoundTrip(v[0]);
      assert Spell(v)[1..] == Spell(v[1..]);
      SpellRoundTrip(v[1..]);
      assert v == [v[0]] + v[1..];
    }
  }

  function Encode64(data: seq<byte>): string {
    Spell(ToSextets(data))
  }

  function Decode64(s: string): Option<seq<byte>> {
    var v := Unspell(s);
    if v.None? then None else FromSextets(v.value)
  }

  lemma Base64RoundTrip(data: seq<byte>)
    ensures Decode64(Encode64(data)) == Some(data)
  {
    SpellRoundTrip(ToSextets(data));
    SextetsRoundTrip(data);
  }

  lemma SixBytes(a: byte, b: byte, c: byte, d: byte, e: byte, f: byte)
    ensures ToSextets([a, b, c, d, e, f]) ==
            [Sextet0(a), Sextet1(a, b), Sextet2(b, c), Sextet3(c), Sextet0(d), Sextet1(d, e), Sextet2(e, f), Sextet3(f)]
  {
    assert [a, b, c, d, e, f][3..] == [d, e, f] && [d, e, f][3..] == [];
    assert ToSextets([d, e, f]) == [Sextet0(d), Sextet1(d, e), Sextet2(e, f), Sextet3(f)] + ToSextets([]);
  }

  lemma SpelledAs(v: seq<sextet>, s: string)
    requires |v| == |s| && forall i :: 0 <= i < |v| ==> Letter(v[i]) == s[i]
    ensures Spell(v) == s
  {
  }

  /** The six-byte vector of section 10 of RFC 4648. */
  lemma FoobarText()
    ensures Encode64([0x66, 0x6F, 0x6F, 0x62, 0x61, 0x72]) == "Zm9vYmFy"
  {
    SixBytes(0x66, 0x6F, 0x6F, 0x62, 0x61, 0x72);
    SpelledAs([25, 38, 61, 47, 24, 38, 5, 50], "Zm9vYmFy");
  }

  /** A short last group, with the two letters of the URL alphabet. */
  lemma UrlText()
    ensures Encode64([0xFB, 0xFF]) == "-_8"
  {
    ShortToSextets([0xFB, 0xFF]);
    SpelledAs([62, 63, 60], "-_8");
  }

  // ---- decimal text ----

  predicate IsDigit(b: byte) { 48 <= b <= 57 }

  function FormatNat(n: nat): (s: seq<byte>)
    ensures s != [] && forall i :: 0 <= i < |s| ==> IsDigit(s[i])
  {
    if n < 10 then [48 + n] else FormatNat(n / 10) + [48 + n % 10]
  }

  /** `%d`. */
  function Format(n: int): seq<byte> {
    if n < 0 then [45] + FormatNat(-n) else FormatNat(n)
  }

  function DigitsValue(s: seq<byte>): nat
    requires forall i :: 0 <= i < |s| ==> IsDigit(s[i])
  {
    if s == [] then 0 else
      assert IsDigit(s[|s| - 1]);
      10 * DigitsValue(s[..|s| - 1]) + (s[|s| - 1] as int - 48)
  }

  function LeadingDigits(s: seq<byte>): (d: seq<byte>)
    ensures d <= s && forall i :: 0 <= i < |d| ==> IsDigit(d[i])
    ensures |d| < |s| ==> !IsDigit(s[|d|])
  {
    if s == [] || !IsDigit(s[0]) then [] else [s[0]] + LeadingDigits(s[1..])
  }

  function SkipBlanks(s: seq<byte>): seq<byte> {
    if s != [] && s[0] in {9, 11, 12, 13, 32} then SkipBlanks(s[1..]) else s
  }

  /** `%d` when scanning: an optional sign and at least one digit, within the range of a 64-bit
      integer; what follows the number is not looked at. */
  function ScanInt(s: seq<byte>): Option<int> {
    var negative := s != [] && s[0] == 45;
    var digits := LeadingDigits(if negative || (s != [] && s[0] == 43) then s[1..] else s);
    if digits == [] then None
    else
      var v: int := if negative then -(DigitsValue(digits) as int) else DigitsValue(digits);
      if -MAX_INT - 1 <= v <= MAX_INT then Some(v) else None
  }

  /** Scanning "o:%d". */
  function ScanOffset(raw: seq<byte>): Option<int> {
    if [111, 58] <= raw then ScanInt(SkipBlanks(raw[2..])) else None
  }

  lemma {:induction false} FormatValue(n: nat)
    ensures DigitsValue(FormatNat(n)) == n
  {
    if n >= 10 {
      FormatValue(n / 10);
      assert FormatNat(n)[..|FormatNat(n)| - 1] == FormatNat(n / 10);
    }
  }

  lemma {:induction false} AllDigitsLead(s: seq<byte>)
    requires forall i :: 0 <= i < |s| ==> IsDigit(s[i])
    ensures LeadingDigits(s) == s
  {
    if s != [] { AllDigitsLead(s[1..]); }
  }

  lemma ScanDigits(n: nat)
    requires n <= MAX_INT
    ensures ScanInt(FormatNat(n)) == Some(n)
  {
    assert IsDigit(FormatNat(n)[0]);
    AllDigitsLead(FormatNat(n));
    FormatValue(n);
  }

  lemma ScanNegative(n: nat)
    requires n <= MAX_INT + 1
    ensures ScanInt([45] + FormatNat(n)) == Some(-(n as int))
  {
    assert ([45] + FormatNat(n))[1..] == FormatNat(n);
    AllDigitsLead(FormatNat(n));
    FormatValue(n);
  }

  lemma TagIsStripped(body: seq<byte>)
    ensures [111, 58] <= [111, 58] + body && ([111, 58] + body)[2..] == body
  {
  }

  lemma NumbersStartUnblank(n: int)
    ensures SkipBlanks(Format(n)) == Format(n)
  {
    if n >= 0 { assert IsDigit(FormatNat(n)[0]); }
  }

  lemma ScanFormatted(n: int)
    requires -MAX_INT - 1 <= n <= MAX_INT
    ensures ScanOffset([111, 58] + Format(n)) == Some(n)
  {
    TagIsStripped(Format(n));
    NumbersStartUnblank(n);
    if n < 0 { ScanNegative(-n); } else { ScanDigits(n); }
  }

  // ---- cursors ----

  function EncodeCursor(offset: int): string {
    Encode64([111, 58] + Format(offset))
  }

  /** None stands for the error results. */
  function DecodeCursor(cursor: string): Option<nat> {
    if cursor == "" then Some(0)
    else
      var raw := Decode64(cursor);
      if raw.None? then None
      else
        var offset := ScanOffset(raw.value);
        if offset.None? || offset.value < 0 then None else Some(offset.value)
  }

  lemma CursorNotEmpty(offset: int)
    ensures EncodeCursor(offset) != ""
  {
    assert |ToSextets([111, 58] + Format(offset))| > 0;
  }

  /** Decoding undoes encoding exactly for the non-negative offsets; a negative one is an error. */
  lemma CursorRoundTrip(offset: int)
    requires -MAX_INT - 1 <= offset <= MAX_INT
    ensures DecodeCursor(EncodeCursor(offset)) == if offset >= 0 then Some(offset) else None
  {
    CursorNotEmpty(offset);
    Base64RoundTrip([111, 58] + Format(offset));
    ScanFormatted(offset);
  }

  lemma FourBytes(a: byte, b: byte, c: byte, d: byte)
    ensures ToSextets([a, b, c, d]) == [Sextet0(a), Sextet1(a, b), Sextet2(b, c), Sextet3(c), Sextet0(d), Sextet1(d, 0)]
  {
    assert [a, b, c, d][3..] == [d];
  }

  /** The cursor after a first page of default size: "o:50". */
  lemma DefaultNextCursor()
    ensures EncodeCursor(50) == "bzo1MA"
  {
    assert FormatNat(50) == FormatNat(5) + [48];
    assert [111, 58] + Format(50) == [111, 58, 53, 48];
    FourBytes(111, 58, 53, 48);
    SpelledAs([27, 51, 40, 53, 12, 0], "bzo1MA");
  }

  /** A cursor that is not empty is accepted only if its text decodes to "o:" and more. */
  lemma ForeignCursorIsRefused(cursor: string)
    requires cursor != "" && DecodeCursor(cursor).Some?
    ensures Decode64(cursor).Some? && [111, 58] <= Decode64(cursor).value
  {
  }

  // ---- pages ----

  datatype Page<T> = Page(items: seq<T>, nextCursor: string, total: nat)

  function EffectiveLimit(limit: int): (l: nat)
    ensures l > 0
  {
    if limit <= 0 then 50 else limit
  }

  /** Where a page starts: a malformed or too large cursor starts over. */
  function StartOf(length: nat, cursor: string): (offset: nat)
    ensures offset <= length
  {
    var offset := DecodeCursor(cursor);
    if offset.None? || offset.value > length then 0 else offset.value
  }

  function PageFrom<T>(items: seq<T>, offset: nat, limit: nat): Page<T>
    requires offset <= |items|
  {
    var end := if offset + limit > |items| then |items| else offset + limit;
    Page(items[offset..end], if end < |items| then EncodeCursor(end) else "", |items|)
  }

  function Paginate<T>(items: seq<T>, cursor: string, limit: int): Page<T> {
    PageFrom(items, StartOf(|items|, cursor), EffectiveLimit(limit))
  }

  lemma StartAfterEncode(length: nat, offset: nat)
    requires offset <= length <= MAX_INT
    ensures StartOf(length, EncodeCursor(offset)) == offset && EncodeCursor(offset) != ""
  {
    CursorRoundTrip(offset);
    CursorNotEmpty(offset);
  }

  lemma PageShape<T>(items: seq<T>, offset: nat, limit: nat)
    requires offset <= |items| && limit > 0
    ensures var p := PageFrom(items, offset, limit);
            && |p.items| <= limit && offset + |p.items| <= |items| && p.items == items[offset..offset + |p.items|]
            && (p.nextCursor == "" <==> offset + |p.items| == |items|)
            && (p.nextCursor != "" ==> |p.items| == limit && offset + limit < |items|)
  {
    if offset + limit < |items| { CursorNotEmpty(offset + limit); }
  }

  /** A next cursor leads to where the page ended. */
  lemma NextLeadsOn<T>(items: seq<T>, offset: nat, limit: nat)
    requires offset + limit < |items| <= MAX_INT
    ensures StartOf(|items|, PageFrom(items, offset, limit).nextCursor) == offset + limit
  {
    StartAfterEncode(|items|, offset + limit);
  }

  /** A malformed cursor, and one beyond the end, give the first page. */
  lemma BadCursorStartsOver<T>(items: seq<T>, cursor: string, limit: int)
    requires DecodeCursor(cursor).None? || DecodeCursor(cursor).value > |items|
    ensures Paginate(items, cursor, limit) == Paginate(items, "", limit)
  {
  }

  lemma PageThenNext<T>(items: seq<T>, cursor: string, limit: int)
    requires |items| <= MAX_INT
    ensures var p, offset, size := Paginate(items, cursor, limit), StartOf(|items|, cursor), EffectiveLimit(limit);
            && |p.items| <= size && offset + |p.items| <= |items| && p.items == items[offset..offset + |p.items|]
            && (p.nextCursor == "" <==> offset + |p.items| == |items|)
            && (p.nextCursor != "" ==> |p.items| == size && StartOf(|items|, p.nextCursor) == offset + size)
  {
    var offset, size := StartOf(|items|, cursor), EffectiveLimit(limit);
    PageShape(items, offset, size);
    if offset + size < |items| { NextLeadsOn(items, offset, size); }
  }

  /** A page holds the limit, or 50 if that is not positive, unless there are fewer items left; it names
      the whole length, and its cursor is that of the item after its last, if there is one. */
  lemma PageHoldsLimit<T>(items: seq<T>, cursor: string, limit: int)
    requires |items| <= MAX_INT
    ensures var p, offset, size := Paginate(items, cursor, limit), StartOf(|items|, cursor), if limit > 0 then limit else 50;
            && p.total == |items|
            && (offset + size < |items| ==> p.items == items[offset..offset + size] && p.nextCursor == EncodeCursor(offset + size))
            && (offset + size >= |items| ==> p.items == items[offset..] && p.nextCursor == "")
  {
    assert forall offset :: 0 <= offset <= |items| ==> items[offset..|items|] == items[offset..];
  }

  /** The pages a client gets by following the next cursors from a given one. */
  ghost function Walk<T>(items: seq<T>, cursor: string, limit: int): seq<Page<T>>
    requires |items| <= MAX_INT
    decreases |items| - StartOf(|items|, cursor)
  {
    PageThenNext(items, cursor, limit);
    var p := Paginate(items, cursor, limit);
    if p.nextCursor == "" then [p] else [p] + Walk(items, p.nextCursor, limit)
  }

  /** The items cut into pages of `size`, from an offset on. */
  ghost function Cut<T>(items: seq<T>, offset: nat, size: nat): seq<seq<T>>
    requires offset <= |items| && size > 0
    decreases |items| - offset
  {
    if offset + size >= |items| then [items[offset..]]
    else [items[offset..offset + size]] + Cut(items, offset + size, size)
  }

  ghost function Flatten<T>(parts: seq<seq<T>>): seq<T> {
    if parts == [] then [] else parts[0] + Flatten(parts[1..])
  }

  ghost function ItemsOf<T>(pages: seq<Page<T>>): seq<seq<T>> {
    seq(|pages|, i requires 0 <= i < |pages| => pages[i].items)
  }

  lemma {:induction false} CutCovers<T>(items: seq<T>, offset: nat, size: nat)
    requires offset <= |items| && size > 0
    ensures Flatten(Cut(items, offset, size)) == items[offset..]
    ensures forall k :: 0 <= k < |Cut(items, offset, size)| ==> |Cut(items, offset, size)[k]| <= size
    ensures forall k :: 0 <= k < |Cut(items, offset, size)| - 1 ==> |Cut(items, offset, size)[k]| == size
    decreases |items| - offset
  {
    if offset + size < |items| {
      CutCovers(items, offset + size, size);
      assert Cut(items, offset, size)[1..] == Cut(items, offset + size, size);
      assert items[offset..] == items[offset..offset + size] + items[offset + size..];
    } else {
      assert Flatten([items[offset..]]) == items[offset..] + Flatten<T>([]);
    }
  }

  lemma ItemsOfCons<T>(p: Page<T>, pages: seq<Page<T>>)
    ensures ItemsOf([p]) == [p.items] && ItemsOf([p] + pages) == [p.items] + ItemsOf(pages)
  {
  }

  lemma CutStep<T>(items: seq<T>, offset: nat, size: nat)
    requires offset <= |items| && size > 0
    ensures offset + size >= |items| ==> Cut(items, offset, size) == [items[offset..|items|]]
    ensures offset + size < |items| ==>
              Cut(items, offset, size) == [items[offset..offset + size]] + Cut(items, offset + size, size)
  {
    assert items[offset..] == items[offset..|items|];
  }

  /** Following the cursors cuts the items, page by page. */
  lemma {:induction false} WalkCuts<T>(items: seq<T>, cursor: string, limit: int, offset: nat)
    requires |items| <= MAX_INT && offset == StartOf(|items|, cursor)
    ensures ItemsOf(Walk(items, cursor, limit)) == Cut(items, offset, EffectiveLimit(limit))
    decreases |items| - offset
  {
    PageThenNext(items, cursor, limit);
    CutStep(items, offset, EffectiveLimit(limit));
    var p := Paginate(items, cursor, limit);
    if p.nextCursor == "" {
      ItemsOfCons(p, []);
    } else {
      WalkCuts(items, p.nextCursor, limit, offset + |p.items|);
      ItemsOfCons(p, Walk(items, p.nextCursor, limit));
    }
  }

  /** Pagination cover: from any cursor the walk ends, its pages hold at most `limit` items each, all
      but the last exactly that many, and together they are the items from the cursor on; from the
      empty cursor, exactly the input. */
  lemma WalkCovers<T>(items: seq<T>, cursor: string, limit: int)
    requires |items| <= MAX_INT
    ensures var parts := ItemsOf(Walk(items, cursor, limit));
            && Flatten(parts) == items[StartOf(|items|, cursor)..]
            && (cursor == "" ==> Flatten(parts) == items)
            && (forall k :: 0 <= k < |parts| ==> |parts[k]| <= if limit > 0 then limit else 50)
            && (forall k :: 0 <= k < |parts| - 1 ==> |parts[k]| == if limit > 0 then limit else 50)
  {
    WalkCuts(items, cursor, limit, StartOf(|items|, cursor));
    CutCovers(items, StartOf(|items|, cursor), EffectiveLimit(limit));
    assert items[0..] == items;
  }
}
