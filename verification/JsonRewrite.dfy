/**
 What the model-name rewrite does to a JSON text, however it is laid out: which value it replaces, and
 when that is the value that names the upstream model.
 */
module JsonRewrite {
  import opened Options
  import opened Bytes
  import opened Catalog
  import opened JsonText
  import opened JsonScan

  // ---------------------------------------------------------------------------
  // The value the needles pick
  // ---------------------------------------------------------------------------

  /** The token of a gap: none for the empty one. */
  function Gap(g: Bytes): seq<Token> {
    if g == [] then [] else [Blank(g)]
  }

  /** A string literal with the letters of `name`. */
  predicate Spelled(t: Token, name: Bytes) {
    t.Quoted? && t.body == PlainBody(name)
  }

  /** A key that spells `key` at `i`, its colon, the gap `g` and the string `name`. */
  predicate ValueAt(us: seq<Token>, i: nat, key: Bytes, g: Bytes, name: Bytes) {
    && TightAt(us, i, key) && i + 2 + |Gap(g)| < |us|
    && (g != [] ==> us[i + 2] == Blank(g))
    && Spelled(us[i + 2 + |Gap(g)|], name)
  }

  function FindValue(us: seq<Token>, key: Bytes, g: Bytes, name: Bytes, from: nat): (r: Option<nat>)
    ensures r.Some? ==> from <= r.value && ValueAt(us, r.value, key, g, name)
    ensures r.Some? ==> forall k: nat | from <= k < r.value :: !ValueAt(us, k, key, g, name)
    ensures r.None? ==> forall k: nat | from <= k :: !ValueAt(us, k, key, g, name)
    decreases |us| - from
  {
    if from >= |us| then None
    else if ValueAt(us, from, key, g, name) then Some(from)
    else FindValue(us, key, g, name, from + 1)
  }

  /** The value picked: after the colon directly, or failing that after one space. */
  function Picked(us: seq<Token>, key: Bytes, name: Bytes): (p: Option<nat>)
    ensures p.Some? ==> p.value < |us| && Spelled(us[p.value], name)
  {
    var a := FindValue(us, key, [], name, 0);
    if a.Some? then Some(a.value + 2)
    else
      var b := FindValue(us, key, " ", name, 0);
      if b.Some? then Some(b.value + 3) else None
  }

  function Put(us: seq<Token>, p: Option<nat>, id: Bytes): seq<Token>
    requires p.Some? ==> p.value < |us| && us[p.value].Quoted?
  {
    if p.Some? then us[p.value := us[p.value].(body := PlainBody(id))] else us
  }

  // ---------------------------------------------------------------------------
  // From tokens to bytes
  // ---------------------------------------------------------------------------

  function MemberBytes(k: Bytes, g: Bytes, name: Bytes): Bytes {
    "\"" + k + "\":" + (g + ("\"" + name + "\""))
  }

  lemma NeedleBytes(name: Bytes)
    ensures Needle(name) == MemberBytes("model", [], name) && SpacedNeedle(name) == MemberBytes("model", " ", name)
  {
  }

  /** What stands before a key's last letters inside its literal. */
  function Lead(t: Token, k: Bytes): Bytes {
    if |TokenText(t)| < |k| + 2 then [] else TokenText(t)[..|TokenText(t)| - |k| - 2]
  }

  lemma LeadText(key: Token, k: Bytes)
    requires key.Quoted? && Spells(key.body, k)
    ensures TokenText(key) == Lead(key, k) + ("\"" + k + "\"") && |TokenText(key)| == |Lead(key, k)| + |k| + 2
  {
    SpelledText(key.body, k);
    var t := TokenText(key);
    assert t == t[..|t| - |k| - 2] + t[|t| - |k| - 2..];
  }

  lemma GlueMember(lead: Bytes, k: Bytes, g: Bytes, name: Bytes)
    ensures (lead + ("\"" + k + "\"")) + (":" + (g + ("\"" + name + "\""))) == lead + MemberBytes(k, g, name)
  {
  }

  lemma GapText(g: Bytes, rest: seq<Token>)
    ensures Text(Gap(g) + rest) == g + Text(rest)
  {
    if g == [] {
      assert Gap(g) + rest == rest;
    } else {
      TextFirst(Blank(g), rest);
    }
  }

  function MemberTokens(key: Token, g: Bytes, v: Token): seq<Token> {
    [key] + ([Punct(':')] + (Gap(g) + [v]))
  }

  lemma MemberText(key: Token, k: Bytes, g: Bytes, v: Token, name: Bytes)
    requires key.Quoted? && Spells(key.body, k) && Spelled(v, name)
    ensures Text(MemberTokens(key, g, v)) == Lead(key, k) + MemberBytes(k, g, name)
  {
    PlainText(name);
    LeadText(key, k);
    TextOne(v);
    GapText(g, [v]);
    TextFirst(Punct(':'), Gap(g) + [v]);
    TextFirst(key, [Punct(':')] + (Gap(g) + [v]));
    GlueMember(Lead(key, k), k, g, name);
  }

  lemma Cut<T>(ts: seq<T>, i: nat, k: nat)
    requires i <= k <= |ts|
    ensures ts == (ts[..i] + ts[i..k]) + ts[k..]
  {
  }

  lemma MemberSlice(us: seq<Token>, i: nat, key: Bytes, g: Bytes, name: Bytes)
    requires ValueAt(us, i, key, g, name)
    ensures us[i..i + 3 + |Gap(g)|] == MemberTokens(us[i], g, us[i + 2 + |Gap(g)|])
  {
  }

  /** The text around a member with a string value: before its key's last letters, and after its value. */
  lemma AroundMember(us: seq<Token>, i: nat, key: Bytes, g: Bytes, name: Bytes)
    requires ValueAt(us, i, key, g, name)
    ensures Text(us) == (Text(us[..i]) + Lead(us[i], key)) + MemberBytes(key, g, name) + Text(us[i + 3 + |Gap(g)|..])
    ensures MatchPos(us, i, key) == |Text(us[..i]) + Lead(us[i], key)|
  {
    var n := i + 3 + |Gap(g)|;
    var mid := MemberTokens(us[i], g, us[i + 2 + |Gap(g)|]);
    MemberSlice(us, i, key, g, name);
    Cut(us, i, n);
    TextConcat(us[..i] + mid, us[n..]);
    TextConcat(us[..i], mid);
    MemberText(us[i], key, g, us[i + 2 + |Gap(g)|], name);
    LeadText(us[i], key);
    Associate(Text(us[..i]), Lead(us[i], key), MemberBytes(key, g, name));
  }

  lemma MiddleOccurs(s: Bytes, a: Bytes, n: Bytes, c: Bytes)
    requires s == a + n + c
    ensures OccursAt(s, |a|, n)
  {
    assert s[|a|..|a| + |n|] == n;
  }

  lemma ValueOccurs(us: seq<Token>, i: nat, key: Bytes, g: Bytes, name: Bytes)
    requires ValueAt(us, i, key, g, name)
    ensures MatchPos(us, i, key) >= 0 && OccursAt(Text(us), MatchPos(us, i, key), MemberBytes(key, g, name))
  {
    AroundMember(us, i, key, g, name);
    MiddleOccurs(Text(us), Text(us[..i]) + Lead(us[i], key), MemberBytes(key, g, name), Text(us[i + 3 + |Gap(g)|..]));
  }

  lemma OffsetsGrow(us: seq<Token>, i: nat, k: nat)
    requires i <= k <= |us|
    ensures Offset(us, i) <= Offset(us, k)
  {
    assert us[..k] == us[..i] + us[i..k];
    TextConcat(us[..i], us[i..k]);
  }

  /** Matches come in the order of their keys. */
  lemma MatchesGrow(us: seq<Token>, i: nat, k: nat, w: Bytes)
    requires i < k < |us| && us[k].Quoted? && Spells(us[k].body, w)
    ensures MatchPos(us, i, w) < MatchPos(us, k, w)
  {
    LeadText(us[k], w);
    assert us[..i + 1] == us[..i] + [us[i]];
    TextConcat(us[..i], [us[i]]);
    TextOne(us[i]);
    OffsetsGrow(us, i + 1, k);
  }

  /** A text that begins with a space and a quoted name begins with that one space as a token. */
  lemma OneSpace(us: seq<Token>, name: Bytes)
    requires GoodTokens(us) && us != [] && " " + ("\"" + name + "\"") <= Text(us)
    ensures us[0] == Blank(" ") && "\"" + name + "\"" <= Text(us[1..])
  {
    assert Text(us)[0] == ' ' && Text(us)[1] == '\"';
    assert GoodToken(us[0]);
    assert us[0].Blank?;
    var w := us[0].space;
    assert w == " ";
    DropPrefix(" ", "\"" + name + "\"", Text(us[1..]));
  }

  predicate IsNeedleGap(g: Bytes) { g == [] || g == " " }

  /** A match of the member's bytes is at such a value. */
  lemma KeyIsValue(us: seq<Token>, i: nat, key: Bytes, g: Bytes, name: Bytes)
    requires GoodTokens(us) && NoQuotes(name) && IsNeedleGap(g) && KeyAt(us, i, key, g + ("\"" + name + "\""))
    ensures ValueAt(us, i, key, g, name)
  {
    GoodDrop(us, i + 2);
    var rest := us[i + 2..];
    if g == [] {
      assert g + ("\"" + name + "\"") == "\"" + name + "\"";
      NeedleTail(rest, name);
    } else {
      OneSpace(rest, name);
      GoodTail(rest);
      assert rest[1..] == us[i + 3..];
      assert us[i + 3..] != [];
      NeedleTail(us[i + 3..], name);
    }
  }

  lemma NeedleIsValue(us: seq<Token>, pos: nat, key: Bytes, g: Bytes, name: Bytes) returns (i: nat)
    requires GoodTokens(us) && Word(key) && NoQuotes(name) && IsNeedleGap(g)
    requires OccursAt(Text(us), pos, MemberBytes(key, g, name))
    ensures i < |us| && ValueAt(us, i, key, g, name) && pos == MatchPos(us, i, key)
  {
    var tail := g + ("\"" + name + "\"");
    assert MemberBytes(key, g, name) == Pattern(key, tail);
    i := OccurrenceIsKey(us, pos, key, tail);
    KeyIsValue(us, i, key, g, name);
  }

  lemma SpliceMiddle(s: Bytes, a: Bytes, n: Bytes, c: Bytes, n': Bytes)
    requires s == a + n + c
    ensures Splice(s, |a|, n, n') == a + n' + c
  {
    assert s[..|a|] == a && s[|a| + |n|..] == c;
  }

  /** Splicing new bytes in place of the member's is putting the new value. */
  lemma SpliceIsPut(us: seq<Token>, i: nat, key: Bytes, g: Bytes, name: Bytes, id: Bytes)
    requires ValueAt(us, i, key, g, name) && MatchPos(us, i, key) >= 0
    requires MatchPos(us, i, key) + |MemberBytes(key, g, name)| <= |Text(us)|
    ensures Splice(Text(us), MatchPos(us, i, key), MemberBytes(key, g, name), MemberBytes(key, g, id))
            == Text(Put(us, Some(i + 2 + |Gap(g)|), id))
  {
    var n := i + 2 + |Gap(g)|;
    var us' := Put(us, Some(n), id);
    AroundMember(us, i, key, g, name);
    AroundMember(us', i, key, g, id);
    assert us'[..i] == us[..i] && us'[n + 1..] == us[n + 1..];
    SpliceMiddle(Text(us), Text(us[..i]) + Lead(us[i], key), MemberBytes(key, g, name), Text(us[n + 1..]), MemberBytes(key, g, id));
  }

  /** The first occurrence of the member's bytes is at the first such value. */
  lemma FindIsFindValue(us: seq<Token>, key: Bytes, g: Bytes, name: Bytes)
    requires GoodTokens(us) && Word(key) && NoQuotes(name) && IsNeedleGap(g)
    ensures var p, i := Find(Text(us), MemberBytes(key, g, name), 0), FindValue(us, key, g, name, 0);
            if i.Some? then p.Some? && p.value == MatchPos(us, i.value, key) else p.None?
  {
    var p := Find(Text(us), MemberBytes(key, g, name), 0);
    var i := FindValue(us, key, g, name, 0);
    if i.Some? {
      ValueOccurs(us, i.value, key, g, name);
    }
    if p.Some? {
      var n := NeedleIsValue(us, p.value, key, g, name);
      assert i.Some? && i.value <= n;
      if i.value < n { MatchesGrow(us, i.value, n, key); }
    }
  }

  /** Replacing the first occurrence of one needle, or failing that of the other, puts the new value
      where it was picked. */
  lemma ReplaceIsPut(us: seq<Token>, key: Bytes, name: Bytes, id: Bytes)
    requires GoodTokens(us) && Word(key) && NoQuotes(name)
    ensures Replace(Text(us), MemberBytes(key, [], name), MemberBytes(key, [], id),
                    MemberBytes(key, " ", name), MemberBytes(key, " ", id))
            == Text(Put(us, Picked(us, key, name), id))
  {
    var a, b := FindValue(us, key, [], name, 0), FindValue(us, key, " ", name, 0);
    FindIsFindValue(us, key, [], name);
    FindIsFindValue(us, key, " ", name);
    if a.Some? {
      SpliceIsPut(us, a.value, key, [], name, id);
    } else if b.Some? {
      SpliceIsPut(us, b.value, key, " ", name, id);
    }
  }

  /** The rewrite changes one value of the text and no other byte: that of the first key that spells
      model, has its colon directly after it and directly after that the upstream model's name; or,
      failing that, the same with one space before the value. */
  lemma PatchRenamesModel(entry: Entry, us: seq<Token>)
    requires GoodTokens(us) && Rewrites(entry) && NoQuotes(entry.upstreamModel)
    ensures Patch(entry, Text(us)) == Text(Put(us, Picked(us, "model", entry.upstreamModel), entry.id))
  {
    NeedleBytes(entry.upstreamModel);
    NeedleBytes(entry.id);
    ReplaceIsPut(us, "model", entry.upstreamModel, entry.id);
  }

  // ---------------------------------------------------------------------------
  // The value that should be replaced
  // ---------------------------------------------------------------------------

  /** The first token from `i` on that is not white space. */
  function Skip(us: seq<Token>, i: nat): (n: nat)
    ensures i <= n
    decreases |us| - i
  {
    if i < |us| && us[i].Blank? then Skip(us, i + 1) else i
  }

  /** The position of the value of the key at `i`. */
  function ValueOf(us: seq<Token>, i: nat): nat {
    Skip(us, Skip(us, i + 1) + 1)
  }

  /** A key that stands for `key`, whose value is a string that stands for `name`. */
  predicate NamesModel(us: seq<Token>, i: nat, key: Bytes, name: Bytes) {
    && i < |us| && IsKey(us[i]) && Decode(us[i].body) == key
    && ValueOf(us, i) < |us| && us[ValueOf(us, i)].Quoted? && Decode(us[ValueOf(us, i)].body) == name
  }

  /** The value of the first such key. */
  function Wanted(us: seq<Token>, key: Bytes, name: Bytes, from: nat): (r: Option<nat>)
    ensures r.Some? ==> r.value < |us| && us[r.value].Quoted? && Decode(us[r.value].body) == name
    decreases |us| - from
  {
    if from >= |us| then None
    else if NamesModel(us, from, key, name) then Some(ValueOf(us, from))
    else Wanted(us, key, name, from + 1)
  }

  lemma TextAround(us: seq<Token>, n: nat)
    requires n < |us|
    ensures Text(us) == (Text(us[..n]) + TokenText(us[n])) + Text(us[n + 1..])
  {
    Cut(us, n, n + 1);
    assert us[n..n + 1] == [us[n]];
    TextConcat(us[..n] + [us[n]], us[n + 1..]);
    TextConcat(us[..n], [us[n]]);
    TextOne(us[n]);
  }

  /** Two texts that first differ in a string, one of them plain, are different. */
  lemma DifferentTexts(p: Bytes, a: Bytes, b: seq<Unit>, x: Bytes, y: Bytes, s: Bytes)
    requires NoQuotes(a) && GoodBody(b) && b != PlainBody(a)
    requires s == (p + ("\"" + a + "\"")) + x
    ensures s != (p + ("\"" + BodyText(b) + "\"")) + y
  {
    if s == (p + ("\"" + BodyText(b) + "\"")) + y {
      assert s[|p| + 1..] == a + "\"" + x;
      assert s[|p| + 1..] == BodyText(b) + "\"" + y;
      assert a + "\"" <= BodyText(b) + "\"" + y;
      BodyMatch(b, a, y);
    }
  }

  lemma DifferentValues(ts: seq<Token>, us: seq<Token>, n: nat, a: Bytes)
    requires n < |ts| && n < |us| && ts[..n] == us[..n] && NoQuotes(a)
    requires Spelled(ts[n], a) && us[n].Quoted? && GoodBody(us[n].body) && us[n].body != PlainBody(a)
    ensures Text(ts) != Text(us)
  {
    TextAround(ts, n);
    TextAround(us, n);
    PlainText(a);
    DifferentTexts(Text(ts[..n]), a, us[n].body, Text(ts[n + 1..]), Text(us[n + 1..]), Text(ts));
  }

  /** A string at `p` that `id` can be put in place of. */
  ghost predicate Replaceable(us: seq<Token>, p: Option<nat>, id: Bytes) {
    p.Some? ==> p.value < |us| && us[p.value].Quoted? && GoodBody(us[p.value].body) && us[p.value].body != PlainBody(id)
  }

  /** Putting a new value in two different places gives two different texts. */
  lemma PutsDiffer(us: seq<Token>, p: Option<nat>, q: Option<nat>, id: Bytes)
    requires NoQuotes(id) && Replaceable(us, p, id) && Replaceable(us, q, id) && p != q
    ensures Text(Put(us, p, id)) != Text(Put(us, q, id))
  {
    if p.Some? && (q.None? || p.value < q.value) {
      DifferentValues(Put(us, p, id), Put(us, q, id), p.value, id);
    } else {
      DifferentValues(Put(us, q, id), Put(us, p, id), q.value, id);
    }
  }

  /** The rewrite renames the first model the text names, and nothing else, exactly when the value that
      the needles pick is that of the first key that stands for model with a value that stands for the
      upstream model, or there is neither. */
  lemma PatchIsRightIff(entry: Entry, us: seq<Token>, j: Json)
    requires GoodJson(j) && LaysOut(us, j) && Rewrites(entry)
    requires NoQuotes(entry.upstreamModel) && NoQuotes(entry.id)
    ensures Patch(entry, Text(us)) == Text(Put(us, Wanted(us, "model", entry.upstreamModel, 0), entry.id))
       <==> Picked(us, "model", entry.upstreamModel) == Wanted(us, "model", entry.upstreamModel, 0)
  {
    LayoutIsGood(us, j);
    PatchRenamesModel(entry, us);
    PutsAgreeIff(us, "model", entry.upstreamModel, entry.id);
  }

  lemma PutsAgreeIff(us: seq<Token>, key: Bytes, name: Bytes, id: Bytes)
    requires GoodTokens(us) && NoQuotes(id) && name != id
    ensures Text(Put(us, Picked(us, key, name), id)) == Text(Put(us, Wanted(us, key, name, 0), id))
       <==> Picked(us, key, name) == Wanted(us, key, name, 0)
  {
    var p, q := Picked(us, key, name), Wanted(us, key, name, 0);
    PlainDecodes(name);
    PlainDecodes(id);
    assert p.Some? ==> GoodToken(us[p.value]);
    assert q.Some? ==> GoodToken(us[q.value]);
    if p != q { PutsDiffer(us, p, q, id); }
  }

  /** A name written with escapes is left alone: any body that stands for the name without being its
      letters, as the only value. */
  lemma EscapedNameIsLeftAlone(entry: Entry, b: seq<Unit>)
    requires GoodBody(b) && Decode(b) == entry.upstreamModel && b != PlainBody(entry.upstreamModel)
    requires Rewrites(entry) && NoQuotes(entry.upstreamModel)
    ensures var us := Compact(PlainBody("model"), [Quoted(b, false)]);
            && Patch(entry, Text(us)) == Text(us)
            && Wanted(us, "model", entry.upstreamModel, 0) == Some(3)
  {
    var us := Compact(PlainBody("model"), [Quoted(b, false)]);
    PlainIsGood("model");
    OneMemberTokens(PlainBody("model"), Str(b));
    LayoutIsGood(us, OneMember(PlainBody("model"), Str(b)));
    EscapedNameNotPicked(b, "model", entry.upstreamModel);
    PatchRenamesModel(entry, us);
  }

  lemma OnlyKeyAtOne(key: Token, v: Token, k: Bytes, name: Bytes)
    requires v.Quoted? && !IsKey(v) && !Spelled(v, name)
    ensures var us := [Punct('{'), key, Punct(':'), v, Punct('}')];
            forall i: nat :: !ValueAt(us, i, k, [], name) && !ValueAt(us, i, k, " ", name)
  {
    var us := [Punct('{'), key, Punct(':'), v, Punct('}')];
    forall i: nat ensures !TightAt(us, i, k) || i == 1 {
    }
  }

  lemma WantedAtThree(key: Token, v: Token, k: Bytes, name: Bytes)
    requires IsKey(key) && Decode(key.body) == k && v.Quoted? && Decode(v.body) == name
    ensures Wanted([Punct('{'), key, Punct(':'), v, Punct('}')], k, name, 0) == Some(3)
  {
    var us := [Punct('{'), key, Punct(':'), v, Punct('}')];
    assert Skip(us, 2) == 2 && Skip(us, 3) == 3;
    assert NamesModel(us, 1, k, name);
    assert Wanted(us, k, name, 1) == Some(3);
  }

  lemma EscapedNameNotPicked(b: seq<Unit>, key: Bytes, name: Bytes)
    requires Decode(b) == name && b != PlainBody(name)
    ensures var us := Compact(PlainBody(key), [Quoted(b, false)]);
            Picked(us, key, name) == None && Wanted(us, key, name, 0) == Some(3)
  {
    var us := Compact(PlainBody(key), [Quoted(b, false)]);
    assert us == [Punct('{'), Quoted(PlainBody(key), true), Punct(':'), Quoted(b, false), Punct('}')];
    PlainDecodes(key);
    OnlyKeyAtOne(Quoted(PlainBody(key), true), Quoted(b, false), key, name);
    WantedAtThree(Quoted(PlainBody(key), true), Quoted(b, false), key, name);
  }
}
