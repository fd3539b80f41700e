/**
 JSON text (RFC 8259): documents, their tokens, the texts that lay the tokens out with white space
 between them, and what string literals stand for.
 */
module JsonText {
  import opened Options
  import opened Bytes
  import opened Catalog

  // ---------------------------------------------------------------------------
  // Documents and tokens
  // ---------------------------------------------------------------------------

  /** One unit of a string literal: a character that stands for itself, or a backslash and the
      character after it (section 7; the digits of a \u escape are plain units). */
  datatype Unit = Plain(c: char) | Escaped(c: char)

  predicate GoodUnit(u: Unit) {
    u.c >= ' ' && (u.Plain? ==> u.c != '\"' && u.c != '\\')
  }

  predicate GoodBody(b: seq<Unit>) {
    forall i | 0 <= i < |b| :: GoodUnit(b[i])
  }

  /** White space between tokens (section 2). */
  predicate IsBlank(c: char) {
    c == ' ' || c == '\t' || c == '\n' || c == '\r'
  }

  /** null, or true, false or a number: none of these begins with n or white space or contains a
      quote. */
  predicate GoodLiteral(t: Bytes) {
    t == "null" || (t != [] && t[0] != 'n' && !IsBlank(t[0]) && '\"' !in t && OneLine(t))
  }

  datatype Json =
    | Literal(text: Bytes)
    | Str(body: seq<Unit>)
    | Arr(items: seq<Json>)
    | Obj(members: seq<Member>)

  datatype Member = Member(key: seq<Unit>, value: Json)

  datatype Token = Punct(c: char) | Lit(text: Bytes) | Quoted(body: seq<Unit>, isKey: bool) | Blank(space: Bytes)

  predicate IsKey(t: Token) {
    t.Quoted? && t.isKey
  }

  /** The tokens of a document, in order. */
  function Tokens(j: Json): seq<Token>
    decreases j, 0
  {
    match j
    case Literal(t) => [Lit(t)]
    case Str(b) => [Quoted(b, false)]
    case Arr(items) => [Punct('[')] + (ItemTokens(items) + [Punct(']')])
    case Obj(members) => [Punct('{')] + (MemberTokens(members) + [Punct('}')])
  }

  function ItemTokens(items: seq<Json>): seq<Token>
    decreases items, 1
  {
    if items == [] then []
    else if |items| == 1 then Tokens(items[0])
    else Tokens(items[0]) + ([Punct(',')] + ItemTokens(items[1..]))
  }

  function MemberTokens(members: seq<Member>): seq<Token>
    decreases members, 1
  {
    if members == [] then []
    else
      var first := [Quoted(members[0].key, true)] + ([Punct(':')] + Tokens(members[0].value));
      if |members| == 1 then first else first + ([Punct(',')] + MemberTokens(members[1..]))
  }

  ghost predicate GoodJson(j: Json) {
    match j
    case Literal(t) => GoodLiteral(t)
    case Str(b) => GoodBody(b)
    case Arr(items) => forall i | 0 <= i < |items| :: GoodJson(items[i])
    case Obj(members) => forall i | 0 <= i < |members| :: GoodBody(members[i].key) && GoodJson(members[i].value)
  }

  // ---------------------------------------------------------------------------
  // Texts
  // ---------------------------------------------------------------------------

  function BodyText(b: seq<Unit>): Bytes {
    if b == [] then []
    else (match b[0] case Plain(c) => [c] case Escaped(c) => ['\\', c]) + BodyText(b[1..])
  }

  function TokenText(t: Token): Bytes {
    match t
    case Punct(c) => [c]
    case Lit(text) => text
    case Quoted(b, _) => "\"" + BodyText(b) + "\""
    case Blank(w) => w
  }

  function Text(ts: seq<Token>): Bytes {
    if ts == [] then [] else TokenText(ts[0]) + Text(ts[1..])
  }

  /** The tokens without the white space between them. */
  function Strip(us: seq<Token>): seq<Token> {
    if us == [] then []
    else if us[0].Blank? then Strip(us[1..])
    else [us[0]] + Strip(us[1..])
  }

  /** `us` is a way to write the document, with white space wherever it may stand. */
  ghost predicate LaysOut(us: seq<Token>, j: Json) {
    Strip(us) == Tokens(j) && forall i | 0 <= i < |us| && us[i].Blank? :: GoodToken(us[i])
  }

  /** The texts of a sequence's elements, one after the other. */
  function Glue<T>(ts: seq<T>, f: T -> Bytes): Bytes {
    if ts == [] then [] else f(ts[0]) + Glue(ts[1..], f)
  }

  lemma Associate(a: Bytes, b: Bytes, c: Bytes)
    ensures (a + b) + c == a + (b + c)
  {
  }

  lemma {:induction false} GlueConcat<T>(a: seq<T>, b: seq<T>, f: T -> Bytes)
    ensures Glue(a + b, f) == Glue(a, f) + Glue(b, f)
    decreases |a|
  {
    if a == [] {
      assert a + b == b;
    } else {
      GlueConcat(a[1..], b, f);
      assert (a + b)[1..] == a[1..] + b;
      Associate(f(a[0]), Glue(a[1..], f), Glue(b, f));
    }
  }

  lemma {:induction false} TextIsGlue(ts: seq<Token>)
    ensures Text(ts) == Glue(ts, TokenText)
    decreases |ts|
  {
    if ts != [] { TextIsGlue(ts[1..]); }
  }

  lemma TextConcat(a: seq<Token>, b: seq<Token>)
    ensures Text(a + b) == Text(a) + Text(b)
  {
    TextIsGlue(a);
    TextIsGlue(b);
    TextIsGlue(a + b);
    GlueConcat(a, b, TokenText);
  }

  lemma TextFirst(t: Token, rest: seq<Token>)
    ensures Text([t] + rest) == TokenText(t) + Text(rest)
  {
    assert ([t] + rest)[1..] == rest;
  }

  lemma TextOne(t: Token)
    ensures Text([t]) == TokenText(t)
  {
    assert [t][1..] == [];
  }

  function UnitText(u: Unit): Bytes {
    match u case Plain(c) => [c] case Escaped(c) => ['\\', c]
  }

  lemma {:induction false} BodyIsGlue(b: seq<Unit>)
    ensures BodyText(b) == Glue(b, UnitText)
    decreases |b|
  {
    if b != [] { BodyIsGlue(b[1..]); }
  }

  lemma BodyConcat(a: seq<Unit>, b: seq<Unit>)
    ensures BodyText(a + b) == BodyText(a) + BodyText(b)
  {
    BodyIsGlue(a);
    BodyIsGlue(b);
    BodyIsGlue(a + b);
    GlueConcat(a, b, UnitText);
  }

  // ---------------------------------------------------------------------------
  // Which token can follow which
  // ---------------------------------------------------------------------------

  predicate Closes(t: Token) {
    t == Punct(',') || t == Punct(']') || t == Punct('}')
  }

  predicate GoodToken(t: Token) {
    match t
    case Punct(c) => c > ' ' && c != '\"' && c != 'n'
    case Lit(text) => GoodLiteral(text)
    case Quoted(b, _) => GoodBody(b)
    case Blank(w) => w != [] && forall i | 0 <= i < |w| :: IsBlank(w[i])
  }

  function At(us: seq<Token>, i: nat): Option<Token> {
    if i < |us| then Some(us[i]) else None
  }

  /** A key is followed by its colon, a string value by the end or closing punctuation, a colon by a
      value; white space may stand anywhere. */
  predicate MayFollow(t: Token, n: Option<Token>) {
    if IsKey(t) then n.Some? && (n.value == Punct(':') || n.value.Blank?)
    else if t.Quoted? then n.None? || Closes(n.value) || n.value.Blank?
    else t == Punct(':') ==> n.Some? && !IsKey(n.value)
  }

  ghost predicate GoodTokens(us: seq<Token>) {
    forall i: nat | i < |us| :: GoodToken(us[i]) && MayFollow(us[i], At(us, i + 1))
  }

  lemma GoodPrepend(t: Token, us: seq<Token>)
    requires GoodToken(t) && GoodTokens(us) && MayFollow(t, At(us, 0))
    ensures GoodTokens([t] + us)
  {
    var all := [t] + us;
    forall i: nat | i < |all| ensures GoodToken(all[i]) && MayFollow(all[i], At(all, i + 1)) {
      if i > 0 { assert all[i] == us[i - 1] && At(all, i + 1) == At(us, i); }
    }
  }

  lemma GoodConcat(a: seq<Token>, b: seq<Token>)
    requires GoodTokens(a) && GoodTokens(b) && (b == [] || Closes(b[0]))
    ensures GoodTokens(a + b)
  {
    var all := a + b;
    forall i: nat | i < |all| ensures GoodToken(all[i]) && MayFollow(all[i], At(all, i + 1)) {
      if i >= |a| {
        assert all[i] == b[i - |a|] && At(all, i + 1) == At(b, i - |a| + 1);
      } else if i == |a| - 1 {
        assert MayFollow(a[i], None);
      } else {
        assert At(all, i + 1) == At(a, i + 1);
      }
    }
  }

  lemma GoodTail(us: seq<Token>)
    requires GoodTokens(us) && us != []
    ensures GoodTokens(us[1..])
  {
    var b := us[1..];
    forall i: nat | i < |b| ensures GoodToken(b[i]) && MayFollow(b[i], At(b, i + 1)) {
      assert b[i] == us[i + 1] && At(b, i + 1) == At(us, i + 2);
    }
  }

  lemma {:induction false} GoodDrop(us: seq<Token>, n: nat)
    requires GoodTokens(us) && n <= |us|
    ensures GoodTokens(us[n..])
    decreases n
  {
    if n > 0 {
      GoodDrop(us, n - 1);
      GoodTail(us[n - 1..]);
      assert us[n - 1..][1..] == us[n..];
    } else {
      assert us[0..] == us;
    }
  }

  /** Good tokens that can stand as a value: some, none of them white space, and no key first. */
  ghost predicate ValueTokens(ts: seq<Token>) {
    GoodTokens(ts) && ts != [] && !IsKey(ts[0]) && NoBlanks(ts)
  }

  ghost predicate NoBlanks(ts: seq<Token>) {
    forall i | 0 <= i < |ts| :: !ts[i].Blank?
  }

  lemma Bracketed(open: char, ts: seq<Token>, close: char)
    requires GoodTokens(ts) && NoBlanks(ts)
    requires GoodToken(Punct(open)) && open != ':' && GoodToken(Punct(close)) && Closes(Punct(close))
    ensures ValueTokens([Punct(open)] + (ts + [Punct(close)]))
  {
    GoodConcat(ts, [Punct(close)]);
    GoodPrepend(Punct(open), ts + [Punct(close)]);
  }

  lemma CommaGood(first: seq<Token>, rest: seq<Token>)
    requires GoodTokens(first) && NoBlanks(first) && GoodTokens(rest) && NoBlanks(rest)
    ensures GoodTokens(first + ([Punct(',')] + rest)) && NoBlanks(first + ([Punct(',')] + rest))
  {
    GoodPrepend(Punct(','), rest);
    GoodConcat(first, [Punct(',')] + rest);
  }

  lemma {:induction false} TokensAreGood(j: Json)
    requires GoodJson(j)
    ensures ValueTokens(Tokens(j))
    decreases j, 0
  {
    match j {
      case Literal(_) =>
      case Str(_) =>
      case Arr(items) =>
        ItemsAreGood(items);
        Bracketed('[', ItemTokens(items), ']');
      case Obj(members) =>
        MembersAreGood(members);
        Bracketed('{', MemberTokens(members), '}');
    }
  }

  lemma {:induction false} ItemsAreGood(items: seq<Json>)
    requires forall i | 0 <= i < |items| :: GoodJson(items[i])
    ensures GoodTokens(ItemTokens(items)) && NoBlanks(ItemTokens(items))
    decreases items, 1
  {
    if items != [] {
      TokensAreGood(items[0]);
      if |items| > 1 {
        ItemsAreGood(items[1..]);
        CommaGood(Tokens(items[0]), ItemTokens(items[1..]));
      }
    }
  }

  lemma MemberGood(key: seq<Unit>, ts: seq<Token>)
    requires GoodBody(key) && ValueTokens(ts)
    ensures var first := [Quoted(key, true)] + ([Punct(':')] + ts); GoodTokens(first) && NoBlanks(first)
  {
    GoodPrepend(Punct(':'), ts);
    GoodPrepend(Quoted(key, true), [Punct(':')] + ts);
  }

  lemma {:induction false} MembersAreGood(members: seq<Member>)
    requires forall i | 0 <= i < |members| :: GoodBody(members[i].key) && GoodJson(members[i].value)
    ensures GoodTokens(MemberTokens(members)) && NoBlanks(MemberTokens(members))
    decreases members, 1
  {
    if members != [] {
      TokensAreGood(members[0].value);
      MemberGood(members[0].key, Tokens(members[0].value));
      if |members| > 1 {
        MembersAreGood(members[1..]);
        CommaGood([Quoted(members[0].key, true)] + ([Punct(':')] + Tokens(members[0].value)), MemberTokens(members[1..]));
      }
    }
  }

  lemma {:induction false} LaidOutIsGood(us: seq<Token>, ts: seq<Token>)
    requires Strip(us) == ts && GoodTokens(ts) && NoBlanks(ts)
    requires forall i | 0 <= i < |us| && us[i].Blank? :: GoodToken(us[i])
    ensures GoodTokens(us)
    decreases |us|
  {
    if us != [] {
      var rest := us[1..];
      assert us == [us[0]] + rest;
      assert forall i | 0 <= i < |rest| :: rest[i] == us[i + 1];
      if us[0].Blank? {
        LaidOutIsGood(rest, ts);
      } else {
        assert ts[0] == us[0] && ts[1..] == Strip(rest);
        GoodTail(ts);
        assert NoBlanks(ts[1..]);
        LaidOutIsGood(rest, ts[1..]);
        NextStripped(rest);
        assert At(ts, 1) == At(Strip(rest), 0);
        assert MayFollow(us[0], At(ts, 1));
      }
      GoodPrepend(us[0], rest);
    }
  }

  /** The next token is white space, or the next one of the stripped tokens. */
  lemma NextStripped(us: seq<Token>)
    ensures (us != [] && us[0].Blank?) || At(us, 0) == At(Strip(us), 0)
  {
  }

  /** Every way to write a document is a good token sequence. */
  lemma LayoutIsGood(us: seq<Token>, j: Json)
    requires GoodJson(j) && LaysOut(us, j)
    ensures GoodTokens(us)
  {
    TokensAreGood(j);
    LaidOutIsGood(us, Tokens(j));
  }

  // ---------------------------------------------------------------------------
  // Keys
  // ---------------------------------------------------------------------------

  /** The keys of every object in the document. */
  function Keys(j: Json): set<seq<Unit>>
    decreases j, 0
  {
    match j
    case Literal(_) => {}
    case Str(_) => {}
    case Arr(items) => ItemKeys(items)
    case Obj(members) => MemberKeys(members)
  }

  function ItemKeys(items: seq<Json>): set<seq<Unit>>
    decreases items, 1
  {
    if items == [] then {} else Keys(items[0]) + ItemKeys(items[1..])
  }

  function MemberKeys(members: seq<Member>): set<seq<Unit>>
    decreases members, 1
  {
    if members == [] then {} else {members[0].key} + Keys(members[0].value) + MemberKeys(members[1..])
  }

  function KeyOf(t: Token): set<seq<Unit>> {
    if IsKey(t) then {t.body} else {}
  }

  function KeyBodies(ts: seq<Token>): set<seq<Unit>> {
    if ts == [] then {} else KeyOf(ts[0]) + KeyBodies(ts[1..])
  }

  lemma {:induction false} KeyBodiesConcat(a: seq<Token>, b: seq<Token>)
    ensures KeyBodies(a + b) == KeyBodies(a) + KeyBodies(b)
    decreases |a|
  {
    if a == [] {
      assert a + b == b;
    } else {
      KeyBodiesConcat(a[1..], b);
      assert (a + b)[1..] == a[1..] + b;
    }
  }

  lemma KeyBodiesFirst(t: Token, ts: seq<Token>)
    ensures KeyBodies([t] + ts) == KeyOf(t) + KeyBodies(ts)
  {
    assert ([t] + ts)[1..] == ts;
  }

  lemma {:induction false} KeyBodiesStrip(us: seq<Token>)
    ensures KeyBodies(us) == KeyBodies(Strip(us))
    decreases |us|
  {
    if us != [] {
      KeyBodiesStrip(us[1..]);
      if !us[0].Blank? { KeyBodiesFirst(us[0], Strip(us[1..])); }
    }
  }

  lemma {:induction false} KeyBodyAt(us: seq<Token>, b: seq<Unit>)
    ensures b in KeyBodies(us) <==> exists i :: 0 <= i < |us| && IsKey(us[i]) && us[i].body == b
    decreases |us|
  {
    if us != [] {
      KeyBodyAt(us[1..], b);
      if i :| 0 <= i < |us| && IsKey(us[i]) && us[i].body == b {
        if i > 0 { assert us[1..][i - 1] == us[i]; }
      }
      if i :| 0 <= i < |us[1..]| && IsKey(us[1..][i]) && us[1..][i].body == b {
        assert us[i + 1] == us[1..][i];
      }
    }
  }

  lemma BracketsAddNoKeys(open: char, ts: seq<Token>, close: char)
    ensures KeyBodies([Punct(open)] + (ts + [Punct(close)])) == KeyBodies(ts)
  {
    KeyBodiesConcat(ts, [Punct(close)]);
    KeyBodiesFirst(Punct(open), ts + [Punct(close)]);
    assert KeyBodies([Punct(close)]) == {} by { assert [Punct(close)][1..] == []; }
  }

  lemma CommaAddsNoKeys(first: seq<Token>, rest: seq<Token>)
    ensures KeyBodies(first + ([Punct(',')] + rest)) == KeyBodies(first) + KeyBodies(rest)
  {
    KeyBodiesConcat(first, [Punct(',')] + rest);
    KeyBodiesFirst(Punct(','), rest);
  }

  /** The key tokens are the keys of the document's objects. */
  lemma {:induction false} TokensHoldKeys(j: Json)
    ensures KeyBodies(Tokens(j)) == Keys(j)
    decreases j, 0
  {
    match j {
      case Literal(_) => assert Tokens(j)[1..] == [];
      case Str(_) => assert Tokens(j)[1..] == [];
      case Arr(items) =>
        ItemsHoldKeys(items);
        BracketsAddNoKeys('[', ItemTokens(items), ']');
      case Obj(members) =>
        MembersHoldKeys(members);
        BracketsAddNoKeys('{', MemberTokens(members), '}');
    }
  }

  lemma {:induction false} ItemsHoldKeys(items: seq<Json>)
    ensures KeyBodies(ItemTokens(items)) == ItemKeys(items)
    decreases items, 1
  {
    if items != [] {
      TokensHoldKeys(items[0]);
      ItemsHoldKeys(items[1..]);
      if |items| > 1 { CommaAddsNoKeys(Tokens(items[0]), ItemTokens(items[1..])); }
    }
  }

  lemma {:induction false} MembersHoldKeys(members: seq<Member>)
    ensures KeyBodies(MemberTokens(members)) == MemberKeys(members)
    decreases members, 1
  {
    if members != [] {
      var k, v := members[0].key, Tokens(members[0].value);
      TokensHoldKeys(members[0].value);
      MembersHoldKeys(members[1..]);
      KeyBodiesFirst(Punct(':'), v);
      KeyBodiesFirst(Quoted(k, true), [Punct(':')] + v);
      if |members| > 1 {
        CommaAddsNoKeys([Quoted(k, true)] + ([Punct(':')] + v), MemberTokens(members[1..]));
      }
    }
  }

  /** However the document is laid out, its key tokens are its keys. */
  lemma LayoutHoldsKeys(us: seq<Token>, j: Json)
    requires LaysOut(us, j)
    ensures KeyBodies(us) == Keys(j)
  {
    KeyBodiesStrip(us);
    TokensHoldKeys(j);
  }

  // ---------------------------------------------------------------------------
  // What a string literal stands for
  // ---------------------------------------------------------------------------

  predicate IsHex(c: char) {
    '0' <= c <= '9' || 'a' <= c <= 'f' || 'A' <= c <= 'F'
  }

  function HexValue(c: char): nat
    requires IsHex(c)
  {
    if c <= '9' then (c - '0') as nat else if c <= 'F' then (c - 'A') as nat + 10 else (c - 'a') as nat + 10
  }

  predicate IsUnicodeEscape(b: seq<Unit>) {
    |b| >= 5 && b[0] == Escaped('u') && forall i | 1 <= i < 5 :: b[i].Plain? && IsHex(b[i].c)
  }

  function CodeUnit(b: seq<Unit>): nat
    requires IsUnicodeEscape(b)
  {
    ((HexValue(b[1].c) * 16 + HexValue(b[2].c)) * 16 + HexValue(b[3].c)) * 16 + HexValue(b[4].c)
  }

  function Byte(n: nat): char { (n % 256) as char }

  /** A code point in UTF-8. */
  function Utf8(p: nat): Bytes {
    if p < 0x80 then [Byte(p)]
    else if p < 0x800 then [Byte(0xC0 + p / 64), Byte(0x80 + p % 64)]
    else if p < 0x1_0000 then [Byte(0xE0 + p / 4096), Byte(0x80 + p / 64 % 64), Byte(0x80 + p % 64)]
    else [Byte(0xF0 + p / 262144), Byte(0x80 + p / 4096 % 64), Byte(0x80 + p / 64 % 64), Byte(0x80 + p % 64)]
  }

  predicate IsHigh(u: nat) { 0xD800 <= u < 0xDC00 }

  predicate IsLow(u: nat) { 0xDC00 <= u < 0xE000 }

  function ShortEscape(c: char): char {
    match c
    case 'b' => 8 as char
    case 'f' => 12 as char
    case 'n' => '\n'
    case 'r' => '\r'
    case 't' => '\t'
    case _ => c
  }

  /** The string a literal stands for (section 7), in UTF-8; half a surrogate pair stands for the
      replacement character. */
  function Decode(b: seq<Unit>): Bytes
    decreases |b|
  {
    if b == [] then []
    else if b[0].Plain? then [b[0].c] + Decode(b[1..])
    else if !IsUnicodeEscape(b) then [ShortEscape(b[0].c)] + Decode(b[1..])
    else
      var u := CodeUnit(b);
      if IsHigh(u) && IsUnicodeEscape(b[5..]) && IsLow(CodeUnit(b[5..])) then
        Utf8(0x1_0000 + (u - 0xD800) * 0x400 + (CodeUnit(b[5..]) - 0xDC00)) + Decode(b[10..])
      else Utf8(if IsHigh(u) || IsLow(u) then 0xFFFD else u) + Decode(b[5..])
  }

  function PlainBody(k: Bytes): seq<Unit> {
    if k == [] then [] else [Plain(k[0])] + PlainBody(k[1..])
  }

  lemma {:induction false} PlainText(k: Bytes)
    ensures BodyText(PlainBody(k)) == k
    decreases |k|
  {
    if k != [] {
      PlainText(k[1..]);
      assert PlainBody(k)[1..] == PlainBody(k[1..]);
    }
  }

  lemma {:induction false} PlainLength(k: Bytes)
    ensures |PlainBody(k)| == |k|
    decreases |k|
  {
    if k != [] { PlainLength(k[1..]); }
  }

  /** A literal without escapes stands for its own letters. */
  lemma {:induction false} PlainDecodes(k: Bytes)
    ensures Decode(PlainBody(k)) == k
    decreases |k|
  {
    if k != [] {
      PlainDecodes(k[1..]);
      assert PlainBody(k)[1..] == PlainBody(k[1..]);
    }
  }

  predicate NoQuotes(k: Bytes) {
    '\"' !in k && '\\' !in k
  }

  lemma {:induction false} PlainIsGood(k: Bytes)
    requires NoQuotes(k) && forall i | 0 <= i < |k| :: k[i] >= ' '
    ensures GoodBody(PlainBody(k))
    decreases |k|
  {
    if k != [] {
      assert forall i | 0 <= i < |k| - 1 :: k[1..][i] == k[i + 1];
      PlainIsGood(k[1..]);
    }
  }

  // ---------------------------------------------------------------------------
  // One line
  // ---------------------------------------------------------------------------

  lemma {:induction false} BodyOneLine(b: seq<Unit>)
    requires GoodBody(b)
    ensures OneLine(BodyText(b))
    decreases |b|
  {
    if b != [] {
      assert GoodUnit(b[0]);
      BodyOneLine(b[1..]);
    }
  }

  /** Without line breaks between its tokens a document is one line. */
  lemma {:induction false} TextOneLine(ts: seq<Token>)
    requires forall i | 0 <= i < |ts| :: GoodToken(ts[i]) && (ts[i].Blank? ==> OneLine(ts[i].space))
    ensures OneLine(Text(ts))
    decreases |ts|
  {
    if ts != [] {
      TextOneLine(ts[1..]);
      assert GoodToken(ts[0]);
      if ts[0].Quoted? { BodyOneLine(ts[0].body); }
    }
  }
}
