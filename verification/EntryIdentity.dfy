/** Identities of entries: normalized text, byte frames that are uniquely decodable, and the choice of
    an identity (`src/feeds/identity.rs`). Characters are Unicode scalar values. */
module EntryIdentity {
  import opened Octets
  import opened Outcomes

  type Byte = Octet

  const MAX_IDENTITY_BYTES: nat := 65_536
  const U32: nat := 0x1_0000_0000
  const U64: nat := 0x1_0000_0000_0000_0000

  // ---- UTF-8

  function EncodeChar(c: char): seq<Byte> {
    var p := c as int;
    if p < 0x80 then [p]
    else if p < 0x800 then [0xC0 + p / 64, 0x80 + p % 64]
    else if p < 0x1_0000 then [0xE0 + p / 4096, 0x80 + p / 64 % 64, 0x80 + p % 64]
    else [0xF0 + p / 262144, 0x80 + p / 4096 % 64, 0x80 + p / 64 % 64, 0x80 + p % 64]
  }

  /** `as_bytes`. */
  function Utf8(s: string): seq<Byte> {
    if s == [] then [] else EncodeChar(s[0]) + Utf8(s[1..])
  }

  /** The length of an encoded character can be told from its first byte. */
  function LengthFrom(first: Byte): nat {
    if first < 0x80 then 1 else if first < 0xE0 then 2 else if first < 0xF0 then 3 else 4
  }

  lemma CharLength(c: char)
    ensures EncodeChar(c) != [] && |EncodeChar(c)| == LengthFrom(EncodeChar(c)[0])
  {
  }

  /** The scalar value that encoded bytes stand for. */
  function Scalar(s: seq<Byte>): int
    requires 1 <= |s| <= 4
  {
    var b0 := s[0] as int;
    if |s| == 1 then b0
    else
      var b1 := s[1] as int - 0x80;
      if |s| == 2 then (b0 - 0xC0) * 64 + b1
      else
        var b2 := s[2] as int - 0x80;
        if |s| == 3 then ((b0 - 0xE0) * 64 + b1) * 64 + b2
        else (((b0 - 0xF0) * 64 + b1) * 64 + b2) * 64 + (s[3] as int - 0x80)
  }

  lemma ScalarOfChar(c: char)
    ensures 1 <= |EncodeChar(c)| <= 4 && Scalar(EncodeChar(c)) == c as int
  {
    var p := c as int;
    assert p / 64 / 64 == p / 4096 && p / 4096 / 64 == p / 262144;
  }

  lemma CharInjective(c: char, d: char)
    requires EncodeChar(c) == EncodeChar(d)
    ensures c == d
  {
    ScalarOfChar(c);
    ScalarOfChar(d);
  }

  lemma {:induction false} Utf8Injective(a: string, b: string)
    requires Utf8(a) == Utf8(b)
    ensures a == b
    decreases |a|
  {
    if a != [] { CharLength(a[0]); }
    if b != [] { CharLength(b[0]); }
    if a != [] && b != [] {
      var x, y := EncodeChar(a[0]), EncodeChar(b[0]);
      assert Utf8(a)[0] == x[0] && Utf8(b)[0] == y[0];
      assert x == Utf8(a)[..|x|] && y == Utf8(b)[..|y|];
      CharInjective(a[0], b[0]);
      assert Utf8(a[1..]) == Utf8(a)[|x|..] && Utf8(b[1..]) == Utf8(b)[|y|..];
      Utf8Injective(a[1..], b[1..]);
    }
  }

  lemma {:induction false} Utf8Append(a: string, b: string)
    ensures Utf8(a + b) == Utf8(a) + Utf8(b)
    decreases |a|
  {
    if a == [] {
      assert a + b == b;
    } else {
      assert (a + b)[1..] == a[1..] + b;
      Utf8Append(a[1..], b);
    }
  }

  // ---- frames

  lemma Powers()
    ensures Pow256(4) == U32 && Pow256(8) == U64
  {
  }

  /** `len() as u32`, which drops the higher bits. */
  function LengthField(length: nat): seq<Byte> {
    BigEndian(length % U32, 4)
  }

  lemma LengthOfField(n: nat)
    requires n < U32
    ensures Value(LengthField(n)) == n
  {
    Powers();
    ValueOfBigEndian(n % U32, 4);
  }

  lemma LengthFieldInjective(m: nat, n: nat)
    requires m < U32 && n < U32 && LengthField(m) == LengthField(n)
    ensures m == n
  {
    LengthOfField(m);
    LengthOfField(n);
  }

  function OptionalFrame(tag: Byte, value: Option<seq<Byte>>): seq<Byte> {
    match value
    case Some(bytes) => [tag, 1] + LengthField(|bytes|) + bytes
    case None => [tag, 0] + LengthField(0)
  }

  predicate Framable(value: Option<seq<Byte>>) {
    value.Some? ==> |value.value| < U32
  }

  /** An optional frame can be read off the front of what follows. */
  lemma OptionalFrameDecodes(tag: Byte, a: Option<seq<Byte>>, b: Option<seq<Byte>>, x: seq<Byte>, y: seq<Byte>)
    requires Framable(a) && Framable(b) && OptionalFrame(tag, a) + x == OptionalFrame(tag, b) + y
    ensures a == b && x == y
  {
    var left, right := OptionalFrame(tag, a) + x, OptionalFrame(tag, b) + y;
    assert left[1] == if a.Some? then 1 else 0;
    assert right[1] == if b.Some? then 1 else 0;
    if a.Some? {
      assert left[2..6] == LengthField(|a.value|) && right[2..6] == LengthField(|b.value|);
      LengthFieldInjective(|a.value|, |b.value|);
      var end := 6 + |a.value|;
      assert left[6..end] == a.value && right[6..end] == b.value;
      assert left[end..] == x && right[end..] == y;
    } else {
      assert left[6..] == x && right[6..] == y;
    }
  }

  // ---- stable fields

  datatype StableEntryFields = StableEntryFields(
    title: Option<string>, author: Option<string>, publishedAtUs: Option<int>,
    firstEnclosureUrl: Option<string>, sanitizedContentHash: Option<seq<Byte>>)

  const FRAME_HEADER: seq<Byte> := [0x52, 0x44, 0x46, 0x50, 0, 1]
  const INDEX_HEADER: seq<Byte> := [0x52, 0x44, 0x49, 0x58, 0, 1]

  predicate IsI64(v: int) {
    -0x8000_0000_0000_0000 <= v <= I64_MAX
  }

  /** The two's complement of a signed 64-bit number. */
  function Signed(v: int): nat
    requires IsI64(v)
  {
    if v < 0 then v + U64 else v
  }

  function TextBytes(text: Option<string>): Option<seq<Byte>> {
    if text.Some? then Some(Utf8(text.value)) else None
  }

  function TimeBytes(time: Option<int>): Option<seq<Byte>>
    requires time.Some? ==> IsI64(time.value)
  {
    if time.Some? then Some(BigEndian(Signed(time.value), 8)) else None
  }

  /** The limits of the field types: 64-bit times, and lengths that fit the length field. */
  predicate Encodable(f: StableEntryFields) {
    && Framable(TextBytes(f.title)) && Framable(TextBytes(f.author)) && Framable(TextBytes(f.firstEnclosureUrl))
    && (f.publishedAtUs.Some? ==> IsI64(f.publishedAtUs.value))
    && (f.sanitizedContentHash.Some? ==> |f.sanitizedContentHash.value| == 32)
  }

  function Frame(f: StableEntryFields): seq<Byte>
    requires f.publishedAtUs.Some? ==> IsI64(f.publishedAtUs.value)
  {
    FRAME_HEADER + OptionalFrame(1, TextBytes(f.title)) + OptionalFrame(2, TextBytes(f.author))
      + OptionalFrame(3, TimeBytes(f.publishedAtUs)) + OptionalFrame(4, TextBytes(f.firstEnclosureUrl))
      + OptionalFrame(5, f.sanitizedContentHash)
  }

  lemma Reassociate(h: seq<Byte>, a: seq<Byte>, b: seq<Byte>, c: seq<Byte>, d: seq<Byte>, e: seq<Byte>)
    ensures h + a + b + c + d + e == h + (a + (b + (c + (d + e))))
  {
    assert h + a + b + c + d + e == h + a + b + c + (d + e);
    assert h + a + b + c + (d + e) == h + a + b + (c + (d + e));
    assert h + a + b + (c + (d + e)) == h + a + (b + (c + (d + e)));
  }

  /** `append_optional`. */
  method AppendOptional(encoded: seq<Byte>, tag: Byte, value: Option<seq<Byte>>) returns (longer: seq<Byte>)
    ensures longer == encoded + OptionalFrame(tag, value)
  {
    longer := encoded + [tag];
    match value {
      case Some(bytes) =>
        longer := longer + [1];
        longer := longer + LengthField(|bytes|);
        longer := longer + bytes;
      case None =>
        longer := longer + [0];
        longer := longer + LengthField(0);
    }
  }

  /** `encode_v1`. */
  method EncodeV1(f: StableEntryFields) returns (encoded: seq<Byte>)
    requires f.publishedAtUs.Some? ==> IsI64(f.publishedAtUs.value)
    ensures encoded == Frame(f)
  {
    encoded := FRAME_HEADER;
    encoded := AppendOptional(encoded, 1, TextBytes(f.title));
    encoded := AppendOptional(encoded, 2, TextBytes(f.author));
    encoded := AppendOptional(encoded, 3, TimeBytes(f.publishedAtUs));
    encoded := AppendOptional(encoded, 4, TextBytes(f.firstEnclosureUrl));
    encoded := AppendOptional(encoded, 5, f.sanitizedContentHash);
  }

  lemma TextInjective(a: Option<string>, b: Option<string>)
    requires TextBytes(a) == TextBytes(b)
    ensures a == b
  {
    if a.Some? { Utf8Injective(a.value, b.value); }
  }

  lemma TimeInjective(a: Option<int>, b: Option<int>)
    requires (a.Some? ==> IsI64(a.value)) && (b.Some? ==> IsI64(b.value)) && TimeBytes(a) == TimeBytes(b)
    ensures a == b
  {
    if a.Some? {
      Powers();
      ValueOfBigEndian(Signed(a.value), 8);
      ValueOfBigEndian(Signed(b.value), 8);
    }
  }

  /** Two entries have the same frame exactly when all their stable fields are equal. */
  lemma FrameInjective(f: StableEntryFields, g: StableEntryFields)
    requires Encodable(f) && Encodable(g)
    ensures Frame(f) == Frame(g) <==> f == g
  {
    if Frame(f) == Frame(g) {
      var f5, g5 := OptionalFrame(5, f.sanitizedContentHash), OptionalFrame(5, g.sanitizedContentHash);
      var f4, g4 := OptionalFrame(4, TextBytes(f.firstEnclosureUrl)) + f5, OptionalFrame(4, TextBytes(g.firstEnclosureUrl)) + g5;
      var f3, g3 := OptionalFrame(3, TimeBytes(f.publishedAtUs)) + f4, OptionalFrame(3, TimeBytes(g.publishedAtUs)) + g4;
      var f2, g2 := OptionalFrame(2, TextBytes(f.author)) + f3, OptionalFrame(2, TextBytes(g.author)) + g3;
      var f1, g1 := OptionalFrame(1, TextBytes(f.title)) + f2, OptionalFrame(1, TextBytes(g.title)) + g2;
      Reassociate(FRAME_HEADER, OptionalFrame(1, TextBytes(f.title)), OptionalFrame(2, TextBytes(f.author)),
        OptionalFrame(3, TimeBytes(f.publishedAtUs)), OptionalFrame(4, TextBytes(f.firstEnclosureUrl)), f5);
      Reassociate(FRAME_HEADER, OptionalFrame(1, TextBytes(g.title)), OptionalFrame(2, TextBytes(g.author)),
        OptionalFrame(3, TimeBytes(g.publishedAtUs)), OptionalFrame(4, TextBytes(g.firstEnclosureUrl)), g5);
      assert (FRAME_HEADER + f1)[6..] == f1 && (FRAME_HEADER + g1)[6..] == g1;
      OptionalFrameDecodes(1, TextBytes(f.title), TextBytes(g.title), f2, g2);
      OptionalFrameDecodes(2, TextBytes(f.author), TextBytes(g.author), f3, g3);
      OptionalFrameDecodes(3, TimeBytes(f.publishedAtUs), TimeBytes(g.publishedAtUs), f4, g4);
      OptionalFrameDecodes(4, TextBytes(f.firstEnclosureUrl), TextBytes(g.firstEnclosureUrl), f5, g5);
      assert f5 + [] == f5 && g5 + [] == g5;
      OptionalFrameDecodes(5, f.sanitizedContentHash, g.sanitizedContentHash, [], []);
      TextInjective(f.title, g.title);
      TextInjective(f.author, g.author);
      TimeInjective(f.publishedAtUs, g.publishedAtUs);
      TextInjective(f.firstEnclosureUrl, g.firstEnclosureUrl);
    }
  }

  // ---- the index frame

  function Tag(kind: IdentityKind): Byte {
    match kind
    case Guid => 1
    case Url => 2
    case Fingerprint => 3
  }

  function IndexBytes(kind: IdentityKind, identity: string): seq<Byte> {
    INDEX_HEADER + [Tag(kind)] + LengthField(|Utf8(identity)|) + Utf8(identity)
  }

  /** The bytes that are hashed for the index tell kind and identity. */
  lemma IndexBytesInjective(k: IdentityKind, a: string, l: IdentityKind, b: string)
    ensures IndexBytes(k, a) == IndexBytes(l, b) <==> k == l && a == b
  {
    if IndexBytes(k, a) == IndexBytes(l, b) {
      assert IndexBytes(k, a)[6] == Tag(k) && IndexBytes(l, b)[6] == Tag(l);
      assert IndexBytes(k, a)[11..] == Utf8(a) && IndexBytes(l, b)[11..] == Utf8(b);
      Utf8Injective(a, b);
    }
  }

  // ---- text

  /** `char::is_whitespace`: the Unicode property White_Space. */
  predicate IsWhitespace(c: char) {
    var p := c as int;
    || 0x09 <= p <= 0x0D || p == 0x20 || p == 0x85 || p == 0xA0 || p == 0x1680 || 0x2000 <= p <= 0x200A
    || p == 0x2028 || p == 0x2029 || p == 0x202F || p == 0x205F || p == 0x3000
  }

  type Words = seq<string>

  predicate IsWord(w: string) {
    w != [] && forall i :: 0 <= i < |w| ==> !IsWhitespace(w[i])
  }

  /** The maximal runs of characters that are not whitespace. */
  function WordsOf(s: string): Words {
    if s == [] then []
    else
      var init, last := WordsOf(s[..|s| - 1]), s[|s| - 1];
      if IsWhitespace(last) then init
      else if |s| == 1 || IsWhitespace(s[|s| - 2]) || init == [] then init + [[last]]
      else init[..|init| - 1] + [init[|init| - 1] + [last]]
  }

  /** Words with single spaces between them. */
  function Join(words: Words): string {
    if words == [] then []
    else if |words| == 1 then words[0]
    else Join(words[..|words| - 1]) + " " + words[|words| - 1]
  }

  lemma {:induction false} WordsAreWords(s: string)
    ensures forall i :: 0 <= i < |WordsOf(s)| ==> IsWord(WordsOf(s)[i])
  {
    if s != [] {
      WordsAreWords(s[..|s| - 1]);
    }
  }

  /** The character after which a word can begin. */
  predicate AtBreak(s: string) {
    s == [] || IsWhitespace(s[|s| - 1])
  }

  /** The words of a text, one character later. */
  lemma WordsOfLast(s: string, c: char)
    ensures WordsOf(s + [c]) ==
      if IsWhitespace(c) then WordsOf(s)
      else if AtBreak(s) || WordsOf(s) == [] then WordsOf(s) + [[c]]
      else WordsOf(s)[..|WordsOf(s)| - 1] + [WordsOf(s)[|WordsOf(s)| - 1] + [c]]
  {
    var t := s + [c];
    assert t[..|t| - 1] == s && t[|t| - 1] == c;
    assert s != [] ==> t[|t| - 2] == s[|s| - 1];
  }

  lemma WordBegins(s: string, c: char)
    requires AtBreak(s) && !IsWhitespace(c)
    ensures WordsOf(s + [c]) == WordsOf(s) + [[c]]
  {
    WordsOfLast(s, c);
  }

  lemma WordGrows(s: string, c: char, words: Words, w: string)
    requires !AtBreak(s) && !IsWhitespace(c) && WordsOf(s) == words + [w]
    ensures WordsOf(s + [c]) == words + [w + [c]]
  {
    WordsOfLast(s, c);
  }

  lemma LastApart<T>(s: seq<T>)
    requires s != []
    ensures s == s[..|s| - 1] + [s[|s| - 1]]
  {
  }

  lemma {:induction false} WordAfterBreak(s: string, w: string)
    requires AtBreak(s) && IsWord(w)
    ensures WordsOf(s + w) == WordsOf(s) + [w]
  {
    if |w| == 1 {
      assert w == [w[0]];
      WordBegins(s, w[0]);
    } else {
      var init, last := w[..|w| - 1], w[|w| - 1];
      LastApart(w);
      assert s + w == (s + init) + [last];
      assert !AtBreak(s + init) by { assert (s + init)[|s + init| - 1] == init[|init| - 1]; }
      WordAfterBreak(s, init);
      WordGrows(s + init, last, WordsOf(s), init);
    }
  }

  lemma WordAfterSpace(s: string, words: Words, w: string)
    requires WordsOf(s) == words && IsWord(w)
    ensures WordsOf(s + " " + w) == words + [w]
  {
    WordsOfLast(s, ' ');
    WordAfterBreak(s + " ", w);
  }

  lemma JoinPush(words: Words, w: string)
    requires words != []
    ensures Join(words + [w]) == Join(words) + " " + w
  {
    assert (words + [w])[..|words|] == words;
  }

  lemma WordAlone(w: string)
    requires IsWord(w)
    ensures WordsOf(w) == [w]
  {
    WordAfterBreak([], w);
    assert [] + w == w;
  }

  lemma WordsOfJoinMore(words: Words, w: string)
    requires words != [] && WordsOf(Join(words)) == words && IsWord(w)
    ensures WordsOf(Join(words + [w])) == words + [w]
  {
    JoinPush(words, w);
    WordAfterSpace(Join(words), words, w);
  }

  /** Splitting undoes joining. */
  lemma {:induction false} WordsOfJoin(words: Words)
    requires forall i :: 0 <= i < |words| ==> IsWord(words[i])
    ensures WordsOf(Join(words)) == words
  {
    if |words| == 1 {
      WordAlone(words[0]);
    } else if words != [] {
      var init, last := words[..|words| - 1], words[|words| - 1];
      LastApart(words);
      WordsOfJoin(init);
      WordsOfJoinMore(init, last);
    }
  }

  lemma {:induction false} LeadingSpace(c: char, s: string)
    requires IsWhitespace(c)
    ensures WordsOf([c] + s) == WordsOf(s)
  {
    if s == [] {
      assert [c] + s == [] + [c];
      WordsOfLast([], c);
    } else {
      var init, last := s[..|s| - 1], s[|s| - 1];
      LeadingSpace(c, init);
      assert s == init + [last];
      assert [c] + s == ([c] + init) + [last];
      WordsOfLast(init, last);
      WordsOfLast([c] + init, last);
    }
  }

  /** `trim_matches` with `char::is_whitespace`. */
  function TrimStart(s: string): string {
    if s != [] && IsWhitespace(s[0]) then TrimStart(s[1..]) else s
  }

  function TrimEnd(s: string): string {
    if s != [] && IsWhitespace(s[|s| - 1]) then TrimEnd(s[..|s| - 1]) else s
  }

  function Trim(s: string): string {
    TrimEnd(TrimStart(s))
  }

  lemma {:induction false} TrimStartKeepsWords(s: string)
    ensures WordsOf(TrimStart(s)) == WordsOf(s)
    decreases |s|
  {
    if s != [] && IsWhitespace(s[0]) {
      TrimStartKeepsWords(s[1..]);
      LeadingSpace(s[0], s[1..]);
      assert [s[0]] + s[1..] == s;
    }
  }

  lemma {:induction false} TrimEndKeepsWords(s: string)
    ensures WordsOf(TrimEnd(s)) == WordsOf(s)
    decreases |s|
  {
    if s != [] && IsWhitespace(s[|s| - 1]) {
      TrimEndKeepsWords(s[..|s| - 1]);
    }
  }

  lemma TrimKeepsWords(s: string)
    ensures WordsOf(Trim(s)) == WordsOf(s)
  {
    TrimStartKeepsWords(s);
    TrimEndKeepsWords(TrimStart(s));
  }

  /** A trimmed text is empty exactly when there is no word. */
  lemma TrimmedIsEmpty(s: string)
    ensures Trim(s) == [] <==> WordsOf(s) == []
  {
    TrimKeepsWords(s);
    EndsTrimmed(TrimStart(s));
    if Trim(s) != [] {
      WordsOfTrimmed(Trim(s));
    }
  }

  lemma {:induction false} EndsTrimmed(s: string)
    ensures TrimEnd(s) != [] ==> !IsWhitespace(TrimEnd(s)[|TrimEnd(s)| - 1])
    decreases |s|
  {
    if s != [] && IsWhitespace(s[|s| - 1]) {
      EndsTrimmed(s[..|s| - 1]);
    }
  }

  lemma WordsOfTrimmed(s: string)
    requires s != [] && !IsWhitespace(s[|s| - 1])
    ensures WordsOf(s) != []
  {
  }

  // ---- byte lengths

  /** Joined words take no more bytes than the text they come from, with a byte to spare while the text
      ends in whitespace after a word. */
  lemma {:induction false} JoinIsShorter(s: string)
    ensures |Utf8(Join(WordsOf(s)))| + (if s != [] && IsWhitespace(s[|s| - 1]) then 1 else 0) <= |Utf8(s)|
  {
    if s != [] {
      var init, last := s[..|s| - 1], s[|s| - 1];
      LastApart(s);
      JoinIsShorter(init);
      Utf8Append(init, [last]);
      Utf8One(last);
      if !IsWhitespace(last) {
        JoinMore(s);
      }
    }
  }

  lemma Utf8One(c: char)
    ensures Utf8([c]) == EncodeChar(c) && |Utf8([c])| >= 1
  {
    assert [c][1..] == [];
    assert Utf8([c]) == EncodeChar(c) + [];
  }

  /** Whether a word that begins here needs a space before it. */
  predicate BeginsNext(s: string)
    requires s != [] && !IsWhitespace(s[|s| - 1])
  {
    WordsOf(s[..|s| - 1]) != [] && (|s| == 1 || IsWhitespace(s[|s| - 2]))
  }

  /** The text joined so far, one character later: this is the step of the loop. */
  lemma JoinNext(s: string)
    requires s != [] && !IsWhitespace(s[|s| - 1])
    ensures Join(WordsOf(s)) == Join(WordsOf(s[..|s| - 1])) + (if BeginsNext(s) then " " else "") + [s[|s| - 1]]
  {
    var words, last := WordsOf(s[..|s| - 1]), s[|s| - 1];
    if words == [] {
      assert WordsOf(s) == [[last]];
    } else if BeginsNext(s) {
      JoinPush(words, [last]);
    } else {
      LastWordGrows(words, last);
      assert Join(words) + "" == Join(words);
    }
  }

  lemma LastWordGrows(words: Words, c: char)
    requires words != []
    ensures Join(words[..|words| - 1] + [words[|words| - 1] + [c]]) == Join(words) + [c]
  {
    var n := |words| - 1;
    var grown := words[..n] + [words[n] + [c]];
    assert grown[..n] == words[..n];
  }

  lemma JoinMore(s: string)
    requires s != [] && !IsWhitespace(s[|s| - 1])
    ensures |Utf8(Join(WordsOf(s)))| ==
      |Utf8(Join(WordsOf(s[..|s| - 1])))| + (if BeginsNext(s) then 1 else 0) + |EncodeChar(s[|s| - 1])|
  {
    var before, c := Join(WordsOf(s[..|s| - 1])), s[|s| - 1];
    JoinNext(s);
    Utf8One(c);
    Utf8Append(before, [c]);
    if BeginsNext(s) {
      Utf8One(' ');
      Utf8Append(before, " ");
      Utf8Append(before + " ", [c]);
    } else {
      assert before + "" == before;
    }
  }

  // ---- normalization

  datatype Failure = TooLong | CredentialsForbidden | InvalidUrl

  /** What `normalize_stable_text` means: the words, with single spaces between them. */
  function StableText(raw: Option<string>): Result<Option<string>, Failure> {
    if raw.None? then Ok(None)
    else if |Utf8(raw.value)| > MAX_IDENTITY_BYTES then Err(TooLong)
    else if WordsOf(raw.value) == [] then Ok(None)
    else Ok(Some(Join(WordsOf(raw.value))))
  }

  /** The state of the loop after some characters. */
  ghost predicate Collapsed(done: string, normalized: string, inWhitespace: bool) {
    && normalized == Join(WordsOf(done))
    && (normalized == [] <==> WordsOf(done) == [])
    && (inWhitespace <==> done != [] && IsWhitespace(done[|done| - 1]))
  }

  lemma CollapseSpace(done: string, normalized: string, inWhitespace: bool, c: char)
    requires Collapsed(done, normalized, inWhitespace) && IsWhitespace(c)
    ensures Collapsed(done + [c], normalized, true)
  {
    WordsOfLast(done, c);
  }

  lemma CollapseCharacter(done: string, normalized: string, inWhitespace: bool, c: char)
    requires Collapsed(done, normalized, inWhitespace) && !IsWhitespace(c)
    ensures Collapsed(done + [c], normalized + (if inWhitespace && normalized != [] then " " else "") + [c], false)
  {
    WordsOfLast(done, c);
    JoinNext(done + [c]);
    assert (done + [c])[..|done|] == done;
    if WordsOf(done) == [] {
      assert WordsOf(done + [c]) == [[c]];
    }
  }

  /** The loop of `normalize_stable_text`. */
  method CollapseWhitespace(trimmed: string) returns (normalized: string)
    ensures normalized == Join(WordsOf(trimmed))
  {
    normalized := "";
    var inWhitespace := false;
    for i := 0 to |trimmed|
      invariant Collapsed(trimmed[..i], normalized, inWhitespace)
    {
      var c := trimmed[i];
      assert trimmed[..i + 1] == trimmed[..i] + [c];
      if IsWhitespace(c) {
        CollapseSpace(trimmed[..i], normalized, inWhitespace, c);
        inWhitespace := true;
      } else {
        CollapseCharacter(trimmed[..i], normalized, inWhitespace, c);
        normalized := normalized + (if inWhitespace && normalized != [] then " " else "");
        normalized := normalized + [c];
        inWhitespace := false;
      }
    }
    assert trimmed[..|trimmed|] == trimmed;
  }

  method NormalizeStableText(raw: Option<string>) returns (result: Result<Option<string>, Failure>)
    ensures result == StableText(raw)
  {
    if raw.None? { return Ok(None); }
    if |Utf8(raw.value)| > MAX_IDENTITY_BYTES { return Err(TooLong); }
    var trimmed := Trim(raw.value);
    TrimmedIsEmpty(raw.value);
    TrimKeepsWords(raw.value);
    if trimmed == [] { return Ok(None); }
    var normalized := CollapseWhitespace(trimmed);
    NormalizedFits(raw.value);
    if |Utf8(normalized)| > MAX_IDENTITY_BYTES { return Err(TooLong); }
    return Ok(Some(normalized));
  }

  lemma NormalizedFits(raw: string)
    ensures |Utf8(Join(WordsOf(raw)))| <= |Utf8(raw)|
  {
    JoinIsShorter(raw);
  }

  /** Normalizing twice is normalizing once. */
  lemma StableTextIdempotent(raw: Option<string>)
    requires StableText(raw).Ok?
    ensures StableText(StableText(raw).value) == StableText(raw)
  {
    if raw.Some? && WordsOf(raw.value) != [] {
      WordsAreWords(raw.value);
      WordsOfJoin(WordsOf(raw.value));
      NormalizedFits(raw.value);
    }
  }

  /** Two texts are normalized alike exactly when they have the same words. */
  lemma StableTextDecides(a: string, b: string)
    requires StableText(Some(a)).Ok? && StableText(Some(b)).Ok?
    ensures StableText(Some(a)) == StableText(Some(b)) <==> WordsOf(a) == WordsOf(b)
  {
    WordsAreWords(a);
    WordsAreWords(b);
    WordsOfJoin(WordsOf(a));
    WordsOfJoin(WordsOf(b));
  }

  // ---- choosing an identity

  datatype UrlFailure = UrlCredentialsForbidden | UrlTooLong | UrlMalformed

  /** URL handling and key derivation, which this model does not look into. */
  datatype Collaborators = Collaborators(
    hasHttpScheme: string -> bool, normalizeUrl: string -> Result<string, UrlFailure>, derive: seq<Byte> -> string)

  function RequiredUrl(c: Collaborators, raw: string): Result<string, Failure> {
    match c.normalizeUrl(raw)
    case Ok(url) => Ok(url)
    case Err(UrlCredentialsForbidden) => Err(CredentialsForbidden)
    case Err(UrlTooLong) => Err(TooLong)
    case Err(UrlMalformed) => Err(InvalidUrl)
  }

  /** `StableEntryFields::new`: the content hash counts only when there is nothing else. */
  function NewFields(c: Collaborators, title: Option<string>, author: Option<string>, publishedAtUs: Option<int>,
                     enclosureUrl: Option<string>, contentHash: Option<seq<Byte>>): Result<StableEntryFields, Failure> {
    var stableTitle := StableText(title);
    if stableTitle.Err? then Err(stableTitle.error)
    else
      var stableAuthor := StableText(author);
      if stableAuthor.Err? then Err(stableAuthor.error)
      else
        var url := if enclosureUrl.Some? then RequiredUrl(c, enclosureUrl.value) else Ok("");
        if url.Err? then Err(url.error)
        else
          var enclosure := if enclosureUrl.Some? then Some(url.value) else None;
          Ok(StableEntryFields(stableTitle.value, stableAuthor.value, publishedAtUs, enclosure,
            if stableTitle.value.None? && stableAuthor.value.None? && publishedAtUs.None? && enclosure.None?
            then contentHash else None))
  }

  /** Normalized fields stay within the limits under which frames are uniquely decodable. */
  lemma NewFieldsEncodable(c: Collaborators, title: Option<string>, author: Option<string>, publishedAtUs: Option<int>,
                           enclosureUrl: Option<string>, contentHash: Option<seq<Byte>>)
    requires NewFields(c, title, author, publishedAtUs, enclosureUrl, contentHash).Ok?
    requires publishedAtUs.Some? ==> IsI64(publishedAtUs.value)
    requires contentHash.Some? ==> |contentHash.value| == 32
    requires forall raw :: c.normalizeUrl(raw).Ok? ==> |Utf8(c.normalizeUrl(raw).value)| < U32
    ensures Encodable(NewFields(c, title, author, publishedAtUs, enclosureUrl, contentHash).value)
  {
    StableTextFramable(title);
    StableTextFramable(author);
  }

  lemma StableTextFramable(raw: Option<string>)
    requires StableText(raw).Ok?
    ensures Framable(TextBytes(StableText(raw).value))
  {
    if raw.Some? { NormalizedFits(raw.value); }
  }

  function StableGuid(guid: Option<string>): Result<Option<string>, Failure> {
    if guid.None? then Ok(None)
    else if |Utf8(guid.value)| > MAX_IDENTITY_BYTES then Err(TooLong)
    else if |Utf8(Trim(guid.value))| > MAX_IDENTITY_BYTES then Err(TooLong)
    else if Trim(guid.value) == [] then Ok(None)
    else Ok(Some(Trim(guid.value)))
  }

  /** What an entry is identified by, before anything is hashed. */
  datatype Key = GuidKey(guid: string) | UrlKey(url: string) | FieldsKey(fields: StableEntryFields)

  /** The order of preference of `from_parts`. A GUID that is a URL counts as a URL, unless it is
      malformed. */
  function KeyOf(c: Collaborators, guid: Option<string>, canonicalUrl: Option<string>,
        fields: StableEntryFields): Result<Key, Failure> {
    var stable := StableGuid(guid);
    if stable.Err? then Err(stable.error)
    else if stable.value.Some? then
      var text := stable.value.value;
      if !c.hasHttpScheme(text) then Ok(GuidKey(text))
      else
        match c.normalizeUrl(text)
        case Ok(url) => Ok(UrlKey(url))
        case Err(UrlCredentialsForbidden) => Err(CredentialsForbidden)
        case Err(UrlTooLong) => Err(TooLong)
        case Err(UrlMalformed) => Ok(GuidKey(text))
    else if canonicalUrl.Some? then
      var url := RequiredUrl(c, canonicalUrl.value);
      if url.Err? then Err(url.error) else Ok(UrlKey(url.value))
    else Ok(FieldsKey(fields))
  }

  datatype Identity = Identity(kind: IdentityKind, text: string, indexFrame: seq<Byte>)

  function IdentityOf(c: Collaborators, key: Key): Identity
    requires key.FieldsKey? ==> Encodable(key.fields)
  {
    match key
    case GuidKey(guid) => Identity(Guid, guid, IndexBytes(Guid, guid))
    case UrlKey(url) => Identity(Url, url, IndexBytes(Url, url))
    case FieldsKey(fields) =>
      Identity(Fingerprint, c.derive(Frame(fields)), IndexBytes(Fingerprint, c.derive(Frame(fields))))
  }

  function Identified(c: Collaborators, guid: Option<string>, canonicalUrl: Option<string>,
        fields: StableEntryFields): Result<Identity, Failure>
    requires Encodable(fields)
  {
    match KeyOf(c, guid, canonicalUrl, fields)
    case Err(failure) => Err(failure)
    case Ok(key) => Ok(IdentityOf(c, key))
  }

  /** The derived key tells two field frames apart. */
  ghost predicate Collides(c: Collaborators, a: Key, b: Key)
    requires (a.FieldsKey? ==> Encodable(a.fields)) && (b.FieldsKey? ==> Encodable(b.fields))
  {
    a.FieldsKey? && b.FieldsKey? && a != b && c.derive(Frame(a.fields)) == c.derive(Frame(b.fields))
  }

  /** Entries get the same index frame exactly when their keys are equal or their fingerprints collide. */
  lemma IndexFrameDecides(c: Collaborators, a: Key, b: Key)
    requires (a.FieldsKey? ==> Encodable(a.fields)) && (b.FieldsKey? ==> Encodable(b.fields))
    ensures IdentityOf(c, a).indexFrame == IdentityOf(c, b).indexFrame <==> a == b || Collides(c, a, b)
  {
    var i, j := IdentityOf(c, a), IdentityOf(c, b);
    IndexBytesInjective(i.kind, i.text, j.kind, j.text);
  }

  // ---- which entries are taken for the same

  /** A GUID counts unless it is blank. */
  ghost predicate HasGuid(guid: Option<string>) {
    guid.Some? && WordsOf(guid.value) != []
  }

  /** The entry goes by a URL: its GUID, where that is a well-formed one, or for want of a GUID its
      canonical URL. */
  ghost predicate ByUrl(c: Collaborators, guid: Option<string>, canonicalUrl: Option<string>, url: string) {
    if HasGuid(guid) then c.hasHttpScheme(Trim(guid.value)) && c.normalizeUrl(Trim(guid.value)) == Ok(url)
    else canonicalUrl.Some? && c.normalizeUrl(canonicalUrl.value) == Ok(url)
  }

  /** The entry goes by its GUID, without surrounding whitespace, which is not a well-formed URL. */
  ghost predicate ByGuid(c: Collaborators, guid: Option<string>, text: string) {
    HasGuid(guid) && text == Trim(guid.value) && !(c.hasHttpScheme(text) && c.normalizeUrl(text).Ok?)
  }

  /** The entry has neither and goes by its stable fields. */
  ghost predicate ByFields(guid: Option<string>, canonicalUrl: Option<string>) {
    !HasGuid(guid) && canonicalUrl.None?
  }

  /** Two entries are the same by URL, whichever part it comes from, by GUID, or by their fields. */
  ghost predicate SameEntry(c: Collaborators, g: Option<string>, u: Option<string>, f: StableEntryFields,
        g': Option<string>, u': Option<string>, f': StableEntryFields)
    requires Encodable(f) && Encodable(f')
  {
    || (exists url :: ByUrl(c, g, u, url) && ByUrl(c, g', u', url))
    || (exists text :: ByGuid(c, g, text) && ByGuid(c, g', text))
    || (ByFields(g, u) && ByFields(g', u') && (f == f' || c.derive(Frame(f)) == c.derive(Frame(f'))))
  }

  /** The identity tells which of the three ways the entry goes by. */
  ghost predicate Recognized(c: Collaborators, guid: Option<string>, canonicalUrl: Option<string>,
        fields: StableEntryFields, i: Identity)
    requires Encodable(fields)
  {
    && i.indexFrame == IndexBytes(i.kind, i.text)
    && (forall url :: ByUrl(c, guid, canonicalUrl, url) <==> i.kind == Url && i.text == url)
    && (forall text :: ByGuid(c, guid, text) <==> i.kind == Guid && i.text == text)
    && (ByFields(guid, canonicalUrl) <==> i.kind == Fingerprint)
    && (i.kind == Fingerprint ==> i.text == c.derive(Frame(fields)))
  }

  lemma WaysOf(c: Collaborators, guid: Option<string>, canonicalUrl: Option<string>, fields: StableEntryFields)
    requires Encodable(fields) && Identified(c, guid, canonicalUrl, fields).Ok?
    ensures Recognized(c, guid, canonicalUrl, fields, Identified(c, guid, canonicalUrl, fields).value)
  {
    if guid.Some? {
      TrimmedIsEmpty(guid.value);
    }
  }

  /** From raw parts to the index: two entries share the frame that is hashed exactly when they are the
      same by URL (also when it is the GUID of the one and the canonical URL of the other), by GUID, or
      by stable fields, or when the fingerprints of different fields collide. */
  lemma IndexFramesAgree(c: Collaborators, g: Option<string>, u: Option<string>, f: StableEntryFields,
        g': Option<string>, u': Option<string>, f': StableEntryFields)
    requires Encodable(f) && Encodable(f')
    requires Identified(c, g, u, f).Ok? && Identified(c, g', u', f').Ok?
    ensures Identified(c, g, u, f).value.indexFrame == Identified(c, g', u', f').value.indexFrame <==>
      SameEntry(c, g, u, f, g', u', f')
  {
    var i, j := Identified(c, g, u, f).value, Identified(c, g', u', f').value;
    WaysOf(c, g, u, f);
    WaysOf(c, g', u', f');
    IndexBytesInjective(i.kind, i.text, j.kind, j.text);
    if i.kind == j.kind && i.text == j.text {
      assert i.kind == Url ==> ByUrl(c, g, u, i.text) && ByUrl(c, g', u', i.text);
      assert i.kind == Guid ==> ByGuid(c, g, i.text) && ByGuid(c, g', i.text);
    }
  }

  /** What is taken for a URL: a GUID that looks like one, or for want of a GUID the canonical URL. */
  ghost function UrlTried(c: Collaborators, guid: Option<string>, canonicalUrl: Option<string>): Option<string> {
    if HasGuid(guid) then if c.hasHttpScheme(Trim(guid.value)) then Some(Trim(guid.value)) else None
    else canonicalUrl
  }

  /** The GUID is too long, or what is taken for a URL is refused; a malformed one is refused only where
      it is not a GUID. */
  ghost predicate Refused(c: Collaborators, guid: Option<string>, canonicalUrl: Option<string>) {
    || (guid.Some? && |Utf8(guid.value)| > MAX_IDENTITY_BYTES)
    || (UrlTried(c, guid, canonicalUrl).Some? &&
        var normalized := c.normalizeUrl(UrlTried(c, guid, canonicalUrl).value);
        normalized.Err? && !(normalized.error.UrlMalformed? && HasGuid(guid)))
  }

  /** The second length check, that of the trimmed GUID, never fails. */
  lemma RefusedExactly(c: Collaborators, guid: Option<string>, canonicalUrl: Option<string>, fields: StableEntryFields)
    requires Encodable(fields)
    ensures Identified(c, guid, canonicalUrl, fields).Err? <==> Refused(c, guid, canonicalUrl)
  {
    if guid.Some? {
      TrimmedIsEmpty(guid.value);
      TrimIsShorter(guid.value);
    }
  }

  lemma TrimIsShorter(s: string)
    ensures |Utf8(Trim(s))| <= |Utf8(s)|
  {
    TrimStartIsShorter(s);
    TrimEndIsShorter(TrimStart(s));
  }

  lemma {:induction false} TrimStartIsShorter(s: string)
    ensures |Utf8(TrimStart(s))| <= |Utf8(s)|
    decreases |s|
  {
    if s != [] && IsWhitespace(s[0]) {
      TrimStartIsShorter(s[1..]);
    }
  }

  lemma {:induction false} TrimEndIsShorter(s: string)
    ensures |Utf8(TrimEnd(s))| <= |Utf8(s)|
    decreases |s|
  {
    if s != [] && IsWhitespace(s[|s| - 1]) {
      TrimEndIsShorter(s[..|s| - 1]);
      assert s == s[..|s| - 1] + [s[|s| - 1]];
      Utf8Append(s[..|s| - 1], [s[|s| - 1]]);
    }
  }

  /** `EntryIdentity::from_parts`. */
  method FromParts(c: Collaborators, guid: Option<string>, canonicalUrl: Option<string>, fields: StableEntryFields)
    returns (result: Result<Identity, Failure>)
    requires Encodable(fields)
    ensures result == Identified(c, guid, canonicalUrl, fields)
    ensures result.Ok? ==> Recognized(c, guid, canonicalUrl, fields, result.value)
    ensures result.Err? <==> Refused(c, guid, canonicalUrl)
  {
    if Identified(c, guid, canonicalUrl, fields).Ok? {
      WaysOf(c, guid, canonicalUrl, fields);
    }
    RefusedExactly(c, guid, canonicalUrl, fields);
    var stable := StableGuid(guid);
    if stable.Err? { return Err(stable.error); }
    if stable.value.Some? {
      var text := stable.value.value;
      if c.hasHttpScheme(text) {
        match c.normalizeUrl(text) {
          case Ok(url) => return Ok(Identity(Url, url, IndexBytes(Url, url)));
          case Err(UrlCredentialsForbidden) => return Err(CredentialsForbidden);
          case Err(UrlTooLong) => return Err(TooLong);
          case Err(UrlMalformed) =>
        }
      }
      return Ok(Identity(Guid, text, IndexBytes(Guid, text)));
    }
    if canonicalUrl.Some? {
      var url := RequiredUrl(c, canonicalUrl.value);
      if url.Err? { return Err(url.error); }
      return Ok(Identity(Url, url.value, IndexBytes(Url, url.value)));
    }
    var frame := EncodeV1(fields);
    var fingerprint := c.derive(frame);
    return Ok(Identity(Fingerprint, fingerprint, IndexBytes(Fingerprint, fingerprint)));
  }

  /** The words of an optional text. */
  ghost function Said(text: Option<string>): Words {
    if text.None? then [] else WordsOf(text.value)
  }

  /** Normalized texts, absent ones included, are equal exactly when they have the same words. */
  lemma SameWords(a: Option<string>, b: Option<string>)
    requires StableText(a).Ok? && StableText(b).Ok?
    ensures StableText(a).value == StableText(b).value <==> Said(a) == Said(b)
  {
    if a.Some? && b.Some? {
      StableTextDecides(a.value, b.value);
    }
  }

  ghost function Linked(c: Collaborators, enclosureUrl: Option<string>): Option<string> {
    if enclosureUrl.Some? && c.normalizeUrl(enclosureUrl.value).Ok? then Some(c.normalizeUrl(enclosureUrl.value).value)
    else None
  }

  lemma SaidNothing(text: Option<string>)
    requires StableText(text).Ok?
    ensures StableText(text).value.None? <==> Said(text) == []
  {
  }

  lemma FieldsFound(c: Collaborators, title: Option<string>, author: Option<string>, at: Option<int>,
        link: Option<string>, hash: Option<seq<Byte>>)
    requires NewFields(c, title, author, at, link, hash).Ok?
    ensures StableText(title).Ok? && StableText(author).Ok?
    ensures NewFields(c, title, author, at, link, hash).value ==
      StableEntryFields(StableText(title).value, StableText(author).value, at, Linked(c, link),
        if Said(title) == [] && Said(author) == [] && at.None? && Linked(c, link).None? then hash else None)
  {
    SaidNothing(title);
    SaidNothing(author);
  }

  /** Stable fields are equal exactly when title and author have the same words, the times and the
      normalized enclosure URLs are equal, and, where there is nothing of these, so are the contents. */
  lemma SameFields(c: Collaborators, title: Option<string>, author: Option<string>, at: Option<int>,
        link: Option<string>, hash: Option<seq<Byte>>, title': Option<string>, author': Option<string>,
        at': Option<int>, link': Option<string>, hash': Option<seq<Byte>>)
    requires NewFields(c, title, author, at, link, hash).Ok? && NewFields(c, title', author', at', link', hash').Ok?
    ensures NewFields(c, title, author, at, link, hash) == NewFields(c, title', author', at', link', hash') <==>
      && Said(title) == Said(title') && Said(author) == Said(author') && at == at' && Linked(c, link) == Linked(c, link')
      && (Said(title) == [] && Said(author) == [] && at.None? && Linked(c, link).None? ==> hash == hash')
  {
    SameWords(title, title');
    SameWords(author, author');
    FieldsFound(c, title, author, at, link, hash);
    FieldsFound(c, title', author', at', link', hash');
  }

  // ---- what separates words, and what trimming yields

  lemma SeparatorsAreWhitespace(c: char)
    ensures c in {' ', '\t', '\n', '\r'} ==> IsWhitespace(c)
    ensures 'a' <= c <= 'z' || 'A' <= c <= 'Z' || '0' <= c <= '9' ==> !IsWhitespace(c)
  {
  }

  /** The 25 characters that count as whitespace. */
  lemma WhitespaceIs(c: char)
    ensures IsWhitespace(c) <==> c as int in {
      0x09, 0x0A, 0x0B, 0x0C, 0x0D, 0x20, 0x85, 0xA0, 0x1680, 0x2000, 0x2001, 0x2002, 0x2003, 0x2004, 0x2005, 0x2006,
      0x2007, 0x2008, 0x2009, 0x200A, 0x2028, 0x2029, 0x202F, 0x205F, 0x3000}
  {
  }

  /** A space, a tab, a line feed or a carriage return between two words keeps them apart. */
  lemma SeparatedWords(a: string, c: char, b: string)
    requires IsWord(a) && IsWord(b) && c in {' ', '\t', '\n', '\r'}
    ensures WordsOf(a + [c] + b) == [a, b]
    ensures Join([a, b]) == a + " " + b
  {
    SeparatorsAreWhitespace(c);
    WordAlone(a);
    WordsOfLast(a, c);
    WordAfterBreak(a + [c], b);
    JoinPush([a], b);
  }

  ghost predicate Blank(s: string) {
    forall i :: 0 <= i < |s| ==> IsWhitespace(s[i])
  }

  /** Trimming takes whitespace from both ends, and all of it. */
  ghost predicate Trims(s: string, before: string, middle: string, after: string) {
    && s == before + middle + after && Blank(before) && Blank(after)
    && (middle != [] ==> !IsWhitespace(middle[0]) && !IsWhitespace(middle[|middle| - 1]))
  }

  lemma {:induction false} TrimStartYields(s: string)
    ensures exists before :: Blank(before) && s == before + TrimStart(s)
    ensures TrimStart(s) != [] ==> !IsWhitespace(TrimStart(s)[0])
    decreases |s|
  {
    if s != [] && IsWhitespace(s[0]) {
      TrimStartYields(s[1..]);
      var before :| Blank(before) && s[1..] == before + TrimStart(s[1..]);
      assert Blank([s[0]] + before) && s == ([s[0]] + before) + TrimStart(s);
    } else {
      assert Blank([]) && s == [] + TrimStart(s);
    }
  }

  lemma {:induction false} TrimEndYields(s: string)
    ensures exists after :: Blank(after) && s == TrimEnd(s) + after
    ensures TrimEnd(s) != [] ==> TrimEnd(s)[0] == s[0] && !IsWhitespace(TrimEnd(s)[|TrimEnd(s)| - 1])
    decreases |s|
  {
    if s != [] && IsWhitespace(s[|s| - 1]) {
      var init := s[..|s| - 1];
      TrimEndYields(init);
      var after :| Blank(after) && init == TrimEnd(init) + after;
      assert Blank(after + [s[|s| - 1]]) && s == TrimEnd(s) + (after + [s[|s| - 1]]);
    } else {
      assert Blank([]) && s == TrimEnd(s) + [];
    }
  }

  lemma TrimYields(s: string)
    ensures exists before, after :: Trims(s, before, Trim(s), after)
  {
    TrimStartYields(s);
    TrimEndYields(TrimStart(s));
    var before :| Blank(before) && s == before + TrimStart(s);
    var after :| Blank(after) && TrimStart(s) == TrimEnd(TrimStart(s)) + after;
    assert before + (Trim(s) + after) == before + Trim(s) + after;
    assert Trims(s, before, Trim(s), after);
  }

  ghost predicate UsedAs(text: Option<string>, middle: string) {
    text == if middle == [] then None else Some(middle)
  }

  /** A GUID is used without the whitespace around it, and counts as absent when nothing else is in it. */
  lemma StableGuidYields(guid: string)
    requires StableGuid(Some(guid)).Ok?
    ensures exists before, middle, after :: Trims(guid, before, middle, after) && UsedAs(StableGuid(Some(guid)).value, middle)
  {
    TrimYields(guid);
    var before, after :| Trims(guid, before, Trim(guid), after);
  }
}
