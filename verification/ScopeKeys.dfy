/** Storage keys made of percent-encoded parts, and what is kept under them: the unsent drafts of a browser
    session and the introduction preferences of the guide.

    encodeURIComponent is section 19.2.6.4 of ECMA-262 over percent-encoding, section 2.1 of RFC 3986:
    the UTF-8 octets of a part are written as they are when unreserved, and as %XX otherwise. */
module ScopeKeys {
  import opened Common

  type Octet = n: int | 0 <= n < 256

  // ----- UTF-8 -----

  function Utf8Char(c: char): seq<Octet> {
    var n := c as int;
    if n < 0x80 then [n]
    else if n < 0x800 then [0xC0 + n / 64, 0x80 + n % 64]
    else if n < 0x10000 then [0xE0 + n / 64 / 64, 0x80 + n / 64 % 64, 0x80 + n % 64]
    else [0xF0 + n / 64 / 64 / 64, 0x80 + n / 64 / 64 % 64, 0x80 + n / 64 % 64, 0x80 + n % 64]
  }

  function Utf8(s: string): seq<Octet> {
    if s == "" then [] else Utf8Char(s[0]) + Utf8(s[1..])
  }

  /** Number of octets announced by a first octet. */
  function Utf8Width(first: Octet): nat {
    if first < 0xC0 then 1 else if first < 0xE0 then 2 else if first < 0xF0 then 3 else 4
  }

  /** The code point of one encoded character, six bits per continuation octet. */
  function Utf8Code(o: seq<Octet>): int
    requires o != [] && |o| == Utf8Width(o[0])
  {
    var a: int := o[0];
    if |o| == 1 then a
    else
      var b: int := o[1];
      if |o| == 2 then (a - 0xC0) * 64 + b - 0x80
      else
        var c: int := o[2];
        if |o| == 3 then ((a - 0xE0) * 64 + b - 0x80) * 64 + c - 0x80
        else
          var d: int := o[3];
          (((a - 0xF0) * 64 + b - 0x80) * 64 + c - 0x80) * 64 + d - 0x80
  }

  predicate Scalar(n: int) { 0 <= n < 0xD800 || 0xE000 <= n < 0x110000 }

  function Utf8Decode(o: seq<Octet>): Option<string> {
    if o == [] then Some("")
    else
      var w := Utf8Width(o[0]);
      if |o| < w || !Scalar(Utf8Code(o[..w])) then None
      else
        var rest := Utf8Decode(o[w..]);
        if rest.None? then None else Some([Utf8Code(o[..w]) as char] + rest.value)
  }

  lemma Utf8CharDecodes(c: char)
    ensures Utf8Char(c) != [] && |Utf8Char(c)| == Utf8Width(Utf8Char(c)[0])
    ensures Utf8Code(Utf8Char(c)) == c as int && Scalar(c as int)
  {
  }

  lemma {:induction false} Utf8RoundTrip(s: string)
    ensures Utf8Decode(Utf8(s)) == Some(s)
  {
    if s != "" {
      var head, tail := Utf8Char(s[0]), Utf8(s[1..]);
      Utf8CharDecodes(s[0]);
      Utf8RoundTrip(s[1..]);
      assert (head + tail)[..|head|] == head && (head + tail)[|head|..] == tail;
      assert (head + tail)[0] == head[0];
      assert s == [s[0]] + s[1..];
    }
  }

  // ----- percent-encoding -----

  predicate Unreserved(n: Octet) {
    || 'A' as int <= n <= 'Z' as int || 'a' as int <= n <= 'z' as int || '0' as int <= n <= '9' as int
    || n == '-' as int || n == '_' as int || n == '.' as int || n == '!' as int || n == '~' as int
    || n == '*' as int || n == '\'' as int || n == '(' as int || n == ')' as int
  }

  function HexDigit(n: int): char
    requires 0 <= n < 16
  {
    if n < 10 then ('0' as int + n) as char else ('A' as int + n - 10) as char
  }

  function HexValue(c: char): int {
    if '0' <= c <= '9' then c as int - '0' as int
    else if 'A' <= c <= 'F' then c as int - 'A' as int + 10
    else -1
  }

  function EncodeOctet(n: Octet): string {
    if Unreserved(n) then [n as char] else ['%', HexDigit(n / 16), HexDigit(n % 16)]
  }

  function PercentEncode(o: seq<Octet>): string {
    if o == [] then "" else EncodeOctet(o[0]) + PercentEncode(o[1..])
  }

  function PercentDecode(s: string): Option<seq<Octet>> {
    if s == "" then Some([])
    else if s[0] != '%' then
      var rest := PercentDecode(s[1..]);
      if s[0] as int >= 256 || rest.None? then None else Some([s[0] as int] + rest.value)
    else if |s| < 3 || HexValue(s[1]) < 0 || HexValue(s[2]) < 0 then None
    else
      var rest := PercentDecode(s[3..]);
      if rest.None? then None else Some([HexValue(s[1]) * 16 + HexValue(s[2])] + rest.value)
  }

  lemma HexRoundTrip(n: Octet)
    ensures HexValue(HexDigit(n / 16)) == n / 16 && HexValue(HexDigit(n % 16)) == n % 16
  {
  }

  lemma DecodeOctet(n: Octet, tail: string, rest: seq<Octet>)
    requires PercentDecode(tail) == Some(rest)
    ensures PercentDecode(EncodeOctet(n) + tail) == Some([n] + rest)
  {
    var head := EncodeOctet(n);
    var text := head + tail;
    assert text[|head|..] == tail && text[0] == head[0];
    if !Unreserved(n) {
      HexRoundTrip(n);
      assert text[1] == head[1] && text[2] == head[2];
    }
  }

  lemma {:induction false} PercentRoundTrip(o: seq<Octet>)
    ensures PercentDecode(PercentEncode(o)) == Some(o)
  {
    if o != [] {
      PercentRoundTrip(o[1..]);
      DecodeOctet(o[0], PercentEncode(o[1..]), o[1..]);
      assert o == [o[0]] + o[1..];
    }
  }

  function EncodeComponent(s: string): string { PercentEncode(Utf8(s)) }

  function DecodeComponent(s: string): Option<string> {
    var o := PercentDecode(s);
    if o.None? then None else Utf8Decode(o.value)
  }

  lemma ComponentRoundTrip(s: string)
    ensures DecodeComponent(EncodeComponent(s)) == Some(s)
  {
    PercentRoundTrip(Utf8(s));
    Utf8RoundTrip(s);
  }

  /** No separator survives in an encoded part. */
  lemma {:induction false} EncodedPlain(o: seq<Octet>, separator: char)
    requires separator == ':' || separator == '/'
    ensures separator !in PercentEncode(o)
  {
    if o != [] {
      EncodedPlain(o[1..], separator);
    }
  }

  // ----- what encoded text looks like -----

  lemma Utf8Cons(c: char, rest: string)
    ensures Utf8([c] + rest) == Utf8Char(c) + Utf8(rest)
  {
    assert ([c] + rest)[1..] == rest;
  }

  lemma PercentCons(n: Octet, rest: seq<Octet>)
    ensures PercentEncode([n] + rest) == EncodeOctet(n) + PercentEncode(rest)
  {
    assert ([n] + rest)[1..] == rest;
  }

  lemma {:induction false} Utf8Append(a: string, b: string)
    ensures Utf8(a + b) == Utf8(a) + Utf8(b)
  {
    if a == "" {
      assert a + b == b;
    } else {
      var c, rest := a[0], a[1..];
      Utf8Append(rest, b);
      assert a + b == [c] + (rest + b) && a == [c] + rest;
      Utf8Cons(c, rest + b);
      Utf8Cons(c, rest);
      AppendAssociative(Utf8Char(c), Utf8(rest), Utf8(b));
    }
  }

  lemma {:induction false} PercentAppend(a: seq<Octet>, b: seq<Octet>)
    ensures PercentEncode(a + b) == PercentEncode(a) + PercentEncode(b)
  {
    if a == [] {
      assert a + b == b;
    } else {
      var n, rest := a[0], a[1..];
      PercentAppend(rest, b);
      assert a + b == [n] + (rest + b) && a == [n] + rest;
      PercentCons(n, rest + b);
      PercentCons(n, rest);
      AppendAssociative(EncodeOctet(n), PercentEncode(rest), PercentEncode(b));
    }
  }

  /** Text is encoded character by character. */
  lemma EncodeAppend(a: string, b: string)
    ensures EncodeComponent(a + b) == EncodeComponent(a) + EncodeComponent(b)
  {
    Utf8Append(a, b);
    PercentAppend(Utf8(a), Utf8(b));
  }

  /** Letters, digits and these nine marks. */
  predicate Untouched(c: char) {
    'A' <= c <= 'Z' || 'a' <= c <= 'z' || '0' <= c <= '9' || c in {'-', '_', '.', '!', '~', '*', '\'', '(', ')'}
  }

  /** One character of ASCII: itself when untouched, otherwise its code in two hexadecimal digits. */
  lemma EncodedAscii(c: char)
    requires c as int < 128
    ensures EncodeComponent([c]) == if Untouched(c) then [c] else ['%', HexDigit(c as int / 16), HexDigit(c as int % 16)]
  {
    assert Utf8([c]) == Utf8Char(c) + Utf8("");
    OneOctet(c as int);
  }

  lemma OneOctet(n: Octet)
    ensures PercentEncode([n]) == EncodeOctet(n)
  {
    assert PercentEncode([n][1..]) == "";
  }

  /** Text of untouched characters is its own encoding. */
  lemma {:induction false} EncodedAsIs(s: string)
    requires forall c | c in s :: Untouched(c)
    ensures EncodeComponent(s) == s
  {
    if s != "" {
      assert s[0] in s && forall c | c in s[1..] :: c in s;
      EncodedAsIs(s[1..]);
      EncodeAppend([s[0]], s[1..]);
      EncodedAscii(s[0]);
      assert [s[0]] + s[1..] == s;
    }
  }

  /** The separators of the keys, the percent sign and a space; characters of two, three and four octets. */
  lemma EncodedExamples()
    ensures EncodeComponent(":") == "%3A" && EncodeComponent("/") == "%2F" && EncodeComponent("%") == "%25"
    ensures EncodeComponent(" ") == "%20" && EncodeComponent("@") == "%40"
    ensures Utf8Char('\U{0080}') == [0xC2, 0x80] && Utf8Char('\U{00E9}') == [0xC3, 0xA9]
    ensures Utf8Char('\U{20AC}') == [0xE2, 0x82, 0xAC]
    ensures Utf8Char('\U{1F600}') == [0xF0, 0x9F, 0x98, 0x80]
  {
    EncodedAscii(':');
    EncodedAscii('/');
    EncodedAscii('%');
    EncodedAscii(' ');
    EncodedAscii('@');
  }

  // ----- joining and splitting -----

  function Join(parts: seq<string>, separator: char): string {
    if parts == [] then ""
    else if |parts| == 1 then parts[0]
    else parts[0] + [separator] + Join(parts[1..], separator)
  }

  function Split(text: string, separator: char): seq<string> {
    if text == "" then [""]
    else
      var rest := Split(text[1..], separator);
      if text[0] == separator then [""] + rest
      else if rest == [] then [] else [[text[0]] + rest[0]] + rest[1..]
  }

  lemma {:induction false} SplitPart(part: string, separator: char, rest: string)
    requires separator !in part
    ensures Split(part, separator) == [part]
    ensures Split(part + [separator] + rest, separator) == [part] + Split(rest, separator)
  {
    if part == "" {
      assert part + [separator] + rest == [separator] + rest;
      assert ([separator] + rest)[1..] == rest;
    } else {
      var tail := part[1..];
      assert forall c | c in tail :: c in part;
      assert part[0] in part;
      SplitPart(tail, separator, rest);
      assert (part + [separator] + rest)[1..] == tail + [separator] + rest;
      assert part == [part[0]] + tail;
      assert ([tail] + Split(rest, separator))[1..] == Split(rest, separator);
    }
  }

  lemma {:induction false} SplitJoin(parts: seq<string>, separator: char)
    requires parts != [] && forall p | p in parts :: separator !in p
    ensures Split(Join(parts, separator), separator) == parts
  {
    assert parts[0] in parts;
    SplitPart(parts[0], separator, Join(parts[1..], separator));
    if |parts| > 1 {
      assert forall p | p in parts[1..] :: p in parts;
      SplitJoin(parts[1..], separator);
      assert parts == [parts[0]] + parts[1..];
    } else {
      assert parts == [parts[0]];
    }
  }

  // ----- keys -----

  datatype Scope = Scope(projectRef: string, threadRef: string, channelRef: string)

  predicate Exact(s: Scope) { s.projectRef != "" && s.threadRef != "" && s.channelRef != "" }

  const DRAFT_PREFIX := "vexlife.browser-session-draft.v1:"

  function DraftKey(s: Scope): string {
    DRAFT_PREFIX + Join([EncodeComponent(s.projectRef), EncodeComponent(s.threadRef), EncodeComponent(s.channelRef)], ':')
  }

  /** Reading a draft key back into its scope. */
  function ScopeOfKey(key: string): Option<Scope> {
    if !(DRAFT_PREFIX <= key) then None
    else
      var parts := Split(key[|DRAFT_PREFIX|..], ':');
      if |parts| != 3 then None
      else
        var p, t, c := DecodeComponent(parts[0]), DecodeComponent(parts[1]), DecodeComponent(parts[2]);
        if p.None? || t.None? || c.None? then None else Some(Scope(p.value, t.value, c.value))
  }

  lemma DraftKeyRoundTrip(s: Scope)
    ensures ScopeOfKey(DraftKey(s)) == Some(s)
  {
    var parts := [EncodeComponent(s.projectRef), EncodeComponent(s.threadRef), EncodeComponent(s.channelRef)];
    EncodedPlain(Utf8(s.projectRef), ':');
    EncodedPlain(Utf8(s.threadRef), ':');
    EncodedPlain(Utf8(s.channelRef), ':');
    SplitJoin(parts, ':');
    assert DraftKey(s)[|DRAFT_PREFIX|..] == Join(parts, ':');
    ComponentRoundTrip(s.projectRef);
    ComponentRoundTrip(s.threadRef);
    ComponentRoundTrip(s.channelRef);
  }

  lemma JoinThree(a: string, b: string, c: string, separator: char)
    ensures Join([a, b, c], separator) == a + [separator] + b + [separator] + c
  {
    assert [a, b, c][1..] == [b, c] && [b, c][1..] == [c];
    assert Join([b, c], separator) == b + [separator] + c;
    assert a + [separator] + (b + [separator] + c) == a + [separator] + b + [separator] + c;
  }

  /** The form of a draft key. */
  lemma DraftKeyIs(s: Scope)
    ensures DraftKey(s) == "vexlife.browser-session-draft.v1:"
                           + (EncodeComponent(s.projectRef) + ":" + EncodeComponent(s.threadRef) + ":"
                              + EncodeComponent(s.channelRef))
  {
    JoinThree(EncodeComponent(s.projectRef), EncodeComponent(s.threadRef), EncodeComponent(s.channelRef), ':');
  }

  lemma DraftKeyInjective(a: Scope, b: Scope)
    requires DraftKey(a) == DraftKey(b)
    ensures a == b
  {
    DraftKeyRoundTrip(a);
    DraftKeyRoundTrip(b);
  }

  datatype Identity = Identity(featureRef: string, planRef: string, sourceVersionRef: string)

  const PREFERENCE_PREFIX := "vexlife.guide.feature-introduction"

  /** The key of an identity under a prefix, and reading it back. */
  function PreferenceKey(prefix: string, id: Identity): string {
    Join([EncodeComponent(prefix), EncodeComponent(id.featureRef), EncodeComponent(id.planRef),
          EncodeComponent(id.sourceVersionRef)], '/')
  }

  function IdentityOfKey(prefix: string, key: string): Option<Identity> {
    var parts := Split(key, '/');
    if |parts| != 4 || DecodeComponent(parts[0]) != Some(prefix) then None
    else
      var f, p, v := DecodeComponent(parts[1]), DecodeComponent(parts[2]), DecodeComponent(parts[3]);
      if f.None? || p.None? || v.None? then None else Some(Identity(f.value, p.value, v.value))
  }

  lemma PreferenceKeyRoundTrip(prefix: string, id: Identity)
    ensures IdentityOfKey(prefix, PreferenceKey(prefix, id)) == Some(id)
  {
    EncodedPlain(Utf8(prefix), '/');
    EncodedPlain(Utf8(id.featureRef), '/');
    EncodedPlain(Utf8(id.planRef), '/');
    EncodedPlain(Utf8(id.sourceVersionRef), '/');
    SplitJoin([EncodeComponent(prefix), EncodeComponent(id.featureRef), EncodeComponent(id.planRef),
               EncodeComponent(id.sourceVersionRef)], '/');
    ComponentRoundTrip(prefix);
    ComponentRoundTrip(id.featureRef);
    ComponentRoundTrip(id.planRef);
    ComponentRoundTrip(id.sourceVersionRef);
  }

  /** The form of a preference key under a prefix that needs no encoding, as that of the guide. */
  lemma PreferenceKeyIs(prefix: string, id: Identity)
    requires forall c | c in prefix :: Untouched(c)
    ensures PreferenceKey(prefix, id) ==
              prefix + "/" + (EncodeComponent(id.featureRef) + "/" + EncodeComponent(id.planRef) + "/"
                              + EncodeComponent(id.sourceVersionRef))
  {
    var f, p, v := EncodeComponent(id.featureRef), EncodeComponent(id.planRef), EncodeComponent(id.sourceVersionRef);
    EncodedAsIs(prefix);
    JoinThree(f, p, v, '/');
    var parts := [prefix, f, p, v];
    assert parts[1..] == [f, p, v];
  }

  /** The keys the guide uses. */
  lemma GuideKeyRoundTrip(id: Identity)
    ensures IdentityOfKey(PREFERENCE_PREFIX, PreferenceKey(PREFERENCE_PREFIX, id)) == Some(id)
  {
    PreferenceKeyRoundTrip(PREFERENCE_PREFIX, id);
  }

  // ----- the unencoded conversation key -----

  /** The key of the message lists: the parts joined as they are. */
  function ConversationKey(s: Scope): string { s.projectRef + "::" + s.threadRef + "::" + s.channelRef }

  /** It is not injective: a separator inside a part moves the border. */
  lemma ConversationKeysCollide()
    ensures exists a, b :: Exact(a) && Exact(b) && a != b && ConversationKey(a) == ConversationKey(b)
  {
    var a, b := Scope("p", "t::u", "c"), Scope("p::t", "u", "c");
    assert ConversationKey(a) == "p::t::u::c" == ConversationKey(b);
    assert a.projectRef != b.projectRef;
  }

  predicate Separator(text: string, i: int) { 0 <= i && i + 2 <= |text| && text[i] == ':' && text[i+1] == ':' }

  /** Two places where a key may be cut into three parts. */
  predicate Cut(key: string, i: int, j: int) {
    Separator(key, i) && Separator(key, j) && i + 2 <= j
  }

  function ScopeOfCut(key: string, i: int, j: int): Scope
    requires Cut(key, i, j)
  {
    Scope(key[..i], key[i+2..j], key[j+2..])
  }

  /** A cut that leaves no part empty. */
  predicate ExactCut(key: string, i: int, j: int) { Cut(key, i, j) && 1 <= i && i + 3 <= j && j + 3 <= |key| }

  predicate OwnBorders(a: Scope, i: int, j: int) { i == |a.projectRef| && j == |a.projectRef| + 2 + |a.threadRef| }

  lemma CutOfScope(b: Scope, i: int, j: int)
    requires OwnBorders(b, i, j)
    ensures var key := ConversationKey(b);
            && Cut(key, i, j) && ScopeOfCut(key, i, j) == b
            && (Exact(b) <==> ExactCut(key, i, j))
  {
    var key := ConversationKey(b);
    assert key[..i] == b.projectRef && key[i+2..j] == b.threadRef && key[j+2..] == b.channelRef;
  }

  lemma ScopeOfCutKey(key: string, i: int, j: int)
    requires Cut(key, i, j)
    ensures ConversationKey(ScopeOfCut(key, i, j)) == key && OwnBorders(ScopeOfCut(key, i, j), i, j)
    ensures Exact(ScopeOfCut(key, i, j)) <==> ExactCut(key, i, j)
  {
    CutOnce(key, i);
    var rest := key[i+2..];
    assert Separator(rest, j - i - 2);
    CutOnce(rest, j - i - 2);
    assert rest[..j-i-2] == key[i+2..j] && rest[j-i..] == key[j+2..];
    Regroup(key[..i], key[i+2..j], key[j+2..]);
  }

  lemma CutOnce(text: string, i: int)
    requires Separator(text, i)
    ensures text == text[..i] + "::" + text[i+2..]
  {
    assert text[i..i+2] == "::";
    assert text == text[..i] + text[i..i+2] + text[i+2..];
  }

  lemma Regroup(p: string, t: string, c: string)
    ensures p + "::" + (t + "::" + c) == p + "::" + t + "::" + c
  {
  }

  /** When a key belongs to one scope alone, exactly: no other exact scope has the key of an exact scope if and only
      if the key can be cut into three parts, none of them empty, only at that scope's own borders. */
  lemma KeyUnambiguousExactly(a: Scope)
    requires Exact(a)
    ensures (forall b | Exact(b) && ConversationKey(b) == ConversationKey(a) :: b == a) <==>
            (forall i, j | ExactCut(ConversationKey(a), i, j) :: OwnBorders(a, i, j))
  {
    var key := ConversationKey(a);
    if forall i, j | ExactCut(key, i, j) :: OwnBorders(a, i, j) {
      forall b | Exact(b) && ConversationKey(b) == key ensures b == a {
        var i, j := |b.projectRef|, |b.projectRef| + 2 + |b.threadRef|;
        CutOfScope(b, i, j);
        CutOfScope(a, i, j);
      }
    }
    if forall b | Exact(b) && ConversationKey(b) == key :: b == a {
      forall i, j | ExactCut(key, i, j) ensures OwnBorders(a, i, j) {
        ScopeOfCutKey(key, i, j);
        assert ScopeOfCut(key, i, j) == a;
      }
    }
  }

  /** A part that holds no separator and does not end in a colon: the first separator after it is its border. */
  predicate Plain(part: string) {
    (forall i | 0 <= i < |part| :: !Separator(part, i)) && (part == "" || part[|part|-1] != ':')
  }

  lemma PlainBorder(part: string, rest: string, i: int)
    requires Plain(part) && Separator(part + "::" + rest, i)
    ensures |part| <= i
  {
    var text := part + "::" + rest;
    if 0 <= i < |part| {
      assert text[i] == part[i];
      if i + 1 < |part| {
        assert text[i+1] == part[i+1];
        assert Separator(part, i);
      }
    }
  }

  /** The key tells scopes apart whose first two parts are plain; single colons do no harm. */
  lemma ConversationKeyInjective(a: Scope, b: Scope)
    requires Plain(a.projectRef) && Plain(a.threadRef) && Plain(b.projectRef) && Plain(b.threadRef)
    requires ConversationKey(a) == ConversationKey(b)
    ensures a == b
  {
    var key := ConversationKey(a);
    var i, j := |a.projectRef|, |a.projectRef| + 2 + |a.threadRef|;
    var k, l := |b.projectRef|, |b.projectRef| + 2 + |b.threadRef|;
    CutOfScope(a, i, j);
    CutOfScope(b, k, l);
    FirstCut(a, k, l);
    FirstCut(b, i, j);
  }

  lemma SeparatorBehind(front: string, rest: string, i: int)
    requires |front| <= i && Separator(front + rest, i)
    ensures Separator(rest, i - |front|)
  {
    var text := front + rest;
    assert text[i] == rest[i - |front|] && text[i+1] == rest[i + 1 - |front|];
  }

  /** The borders of plain parts come before those of any other cut. */
  lemma FirstCut(a: Scope, k: int, l: int)
    requires Plain(a.projectRef) && Plain(a.threadRef) && Cut(ConversationKey(a), k, l)
    ensures |a.projectRef| <= k
    ensures k == |a.projectRef| ==> |a.projectRef| + 2 + |a.threadRef| <= l
  {
    var rest := a.threadRef + "::" + a.channelRef;
    assert ConversationKey(a) == a.projectRef + "::" + rest;
    PlainBorder(a.projectRef, rest, k);
    if k == |a.projectRef| {
      SeparatorBehind(a.projectRef + "::", rest, l);
      PlainBorder(a.threadRef, a.channelRef, l - k - 2);
    }
  }

  // ----- session drafts -----

  datatype Record = Record(schemaVersion: string, state: string, scope: Scope, content: string, updatedAt: string,
                           queued: bool, accepted: bool)

  const DRAFT_SCHEMA := "vexlife.browser-session-draft/v1"
  const UNSENT := "UNSENT_LOCAL_DRAFT"

  /** What a storage item parses to; NotARecord is text that is no record at all. */
  datatype Item = Parsed(record: Record) | NotARecord

  type Items = map<string, Item>

  /** Is there a storage, and does writing to it succeed? */
  datatype Device = MISSING | WORKING | REFUSING

  /** Reading the draft of a scope under a key; the record found must be an unsent draft of that very scope. */
  function ReadAt(key: string, device: Device, items: Items, scope: Scope): Option<Record> {
    if device == MISSING || key !in items || items[key].NotARecord? then None
    else
      var r := items[key].record;
      if r.schemaVersion != DRAFT_SCHEMA || r.state != UNSENT || r.scope != scope || r.content == ""
         || r.queued || r.accepted then None
      else Some(r)
  }

  /** Exactly which items are read as the draft of a scope. */
  lemma ReadAtExactly(key: string, device: Device, items: Items, scope: Scope, r: Record)
    ensures ReadAt(key, device, items, scope) == Some(r) <==>
              && device != MISSING && key in items && items[key] == Parsed(r)
              && r.schemaVersion == "vexlife.browser-session-draft/v1" && r.state == "UNSENT_LOCAL_DRAFT"
              && r.scope == scope && |r.content| > 0 && !r.queued && !r.accepted
  {
  }

  datatype Written = Written(items: Items, record: Option<Record>) | WriteThrew

  function DraftRecord(scope: Scope, content: string, now: string): Record {
    Record(DRAFT_SCHEMA, UNSENT, scope, content, now, false, false)
  }

  /** Writing a draft under a key; empty content removes it. Only the setting of an item can be refused. */
  function WriteAt(key: string, device: Device, items: Items, scope: Scope, content: string, now: string): Written {
    if device == MISSING then Written(items, None)
    else if content == "" then Written(items - {key}, None)
    else if device == REFUSING then WriteThrew
    else Written(items[key := Parsed(DraftRecord(scope, content, now))], Some(DraftRecord(scope, content, now)))
  }

  function ReadDraft(device: Device, items: Items, scope: Scope): Option<Record>
    requires Exact(scope)
  {
    ReadAt(DraftKey(scope), device, items, scope)
  }

  function WriteDraft(device: Device, items: Items, scope: Scope, content: string, now: string): Written
    requires Exact(scope)
  {
    WriteAt(DraftKey(scope), device, items, scope, content, now)
  }

  lemma ReadBackAt(key: string, otherKey: string, device: Device, items: Items, scope: Scope, content: string,
                   now: string, other: Scope)
    requires WriteAt(key, device, items, scope, content, now).Written?
    requires other != scope ==> otherKey != key
    ensures var after := WriteAt(key, device, items, scope, content, now).items;
            && (device == WORKING && content != "" ==>
                  ReadAt(key, device, after, scope) == Some(DraftRecord(scope, content, now)))
            && (content == "" && device != MISSING ==> ReadAt(key, device, after, scope).None?)
            && (other != scope ==> ReadAt(otherKey, device, after, other) == ReadAt(otherKey, device, items, other))
  {
  }

  /** A draft written is read back as that text, by its own scope; a draft of empty text is gone. No other
      scope ever reads anything else than before. */
  lemma DraftReadBack(device: Device, items: Items, scope: Scope, content: string, now: string, other: Scope)
    requires Exact(scope) && Exact(other) && WriteDraft(device, items, scope, content, now).Written?
    ensures var after := WriteDraft(device, items, scope, content, now).items;
            && (device == WORKING && content != "" ==>
                  ReadDraft(device, after, scope) == Some(DraftRecord(scope, content, now)))
            && (content == "" ==> ReadDraft(device, after, scope).None?)
            && (other != scope ==> ReadDraft(device, after, other) == ReadDraft(device, items, other))
  {
    if DraftKey(other) == DraftKey(scope) {
      DraftKeyInjective(other, scope);
    }
    ReadBackAt(DraftKey(scope), DraftKey(other), device, items, scope, content, now, other);
  }

  datatype Write = Write(scope: Scope, content: string, now: string)

  function WriteAll(items: Items, writes: seq<Write>): Items
    requires forall w | w in writes :: Exact(w.scope)
  {
    if writes == [] then items
    else
      var w := writes[|writes|-1];
      assert w in writes;
      WriteDraft(WORKING, WriteAll(items, writes[..|writes|-1]), w.scope, w.content, w.now).items
  }

  /** The last write for a scope. */
  function LastWrite(writes: seq<Write>, scope: Scope): Option<Write> {
    if writes == [] then None
    else
      var w := writes[|writes|-1];
      if w.scope == scope then Some(w) else LastWrite(writes[..|writes|-1], scope)
  }

  function DraftText(items: Items, scope: Scope): Option<string>
    requires Exact(scope)
  {
    var r := ReadDraft(WORKING, items, scope);
    if r.Some? then Some(r.value.content) else None
  }

  lemma WriteKeeps(items: Items, w: Write, scope: Scope)
    requires Exact(scope) && Exact(w.scope)
    ensures DraftText(WriteDraft(WORKING, items, w.scope, w.content, w.now).items, scope) ==
              if w.scope != scope then DraftText(items, scope) else if w.content == "" then None else Some(w.content)
  {
    DraftReadBack(WORKING, items, w.scope, w.content, w.now, scope);
  }

  /** A working storage, whatever it holds, behaves like a map from scopes to texts, over any sequence of writes to any
      scopes: a scope reads its last write, and what it read before when there was none. */
  lemma {:induction false} StorageIsScopeMap(items: Items, writes: seq<Write>, scope: Scope)
    requires Exact(scope) && forall w | w in writes :: Exact(w.scope)
    ensures var last := LastWrite(writes, scope);
            DraftText(WriteAll(items, writes), scope) ==
              if last.None? then DraftText(items, scope)
              else if last.value.content == "" then None
              else Some(last.value.content)
  {
    if writes != [] {
      var init, w := writes[..|writes|-1], writes[|writes|-1];
      assert w in writes && forall v | v in init :: v in writes;
      StorageIsScopeMap(items, init, scope);
      WriteKeeps(WriteAll(items, init), w, scope);
    }
  }

  // ----- introduction preferences -----

  datatype PreferenceState = DEFERRED | ACKNOWLEDGED | SUPPRESSED

  /** What the preference store holds under a key: a record, of whatever identity, something that is no preference
      record, or text that the store cannot read. */
  datatype Preference = Preference(state: PreferenceState, id: Identity) | Foreign | Unreadable

  type Preferences = map<string, Preference>

  datatype Answer = NoPreference | ReadFailed | InvalidPreference | Prefers(state: PreferenceState)

  /** What the runner makes of the preference stored under the key of an identity. */
  function ReadPreference(prefix: string, store: Preferences, id: Identity): Answer {
    var key := PreferenceKey(prefix, id);
    if key !in store then NoPreference
    else
      match store[key]
      case Unreadable => ReadFailed
      case Foreign => InvalidPreference
      case Preference(state, owner) => if owner != id then InvalidPreference else Prefers(state)
  }

  /** What is read for an identity: nothing, a failed read, or a preference of that very identity; a record of another
      identity, or anything else, is invalid. */
  lemma ReadPreferenceExactly(prefix: string, store: Preferences, id: Identity, state: PreferenceState)
    ensures var key, answer := PreferenceKey(prefix, id), ReadPreference(prefix, store, id);
            && (answer == NoPreference <==> key !in store)
            && (answer == ReadFailed <==> key in store && store[key] == Unreadable)
            && (answer == Prefers(state) <==> key in store && store[key] == Preference(state, id))
  {
  }

  /** A choice, and whether the store takes it or throws. */
  datatype Choice = Set(id: Identity, state: PreferenceState, taken: bool) | Clear(id: Identity, taken: bool)

  function Choose(prefix: string, store: Preferences, w: Choice): Preferences {
    if !w.taken then store
    else
      match w
      case Set(id, state, _) => store[PreferenceKey(prefix, id) := Preference(state, id)]
      case Clear(id, _) => store - {PreferenceKey(prefix, id)}
  }

  function ChooseAll(prefix: string, store: Preferences, choices: seq<Choice>): Preferences {
    if choices == [] then store
    else Choose(prefix, ChooseAll(prefix, store, choices[..|choices|-1]), choices[|choices|-1])
  }

  /** The last choice taken for an identity. */
  function LastChoice(choices: seq<Choice>, id: Identity): Option<Choice> {
    if choices == [] then None
    else
      var w := choices[|choices|-1];
      if w.id == id && w.taken then Some(w) else LastChoice(choices[..|choices|-1], id)
  }

  lemma PreferenceKeyInjective(prefix: string, a: Identity, b: Identity)
    requires PreferenceKey(prefix, a) == PreferenceKey(prefix, b)
    ensures a == b
  {
    PreferenceKeyRoundTrip(prefix, a);
    PreferenceKeyRoundTrip(prefix, b);
  }

  function AnswerOf(w: Choice): Answer { if w.Clear? then NoPreference else Prefers(w.state) }

  lemma ChoiceKeeps(prefix: string, store: Preferences, w: Choice, id: Identity)
    ensures ReadPreference(prefix, Choose(prefix, store, w), id) ==
              if w.id == id && w.taken then AnswerOf(w) else ReadPreference(prefix, store, id)
  {
    if PreferenceKey(prefix, w.id) == PreferenceKey(prefix, id) {
      PreferenceKeyInjective(prefix, w.id, id);
    }
  }

  /** Preferences are isolated too, whatever the store held and whichever of its writes fail: an identity reads the
      last choice taken for that very identity, and what it read before when there was none. */
  lemma {:induction false} PreferencesIsolated(prefix: string, store: Preferences, choices: seq<Choice>, id: Identity)
    ensures var last := LastChoice(choices, id);
            ReadPreference(prefix, ChooseAll(prefix, store, choices), id) ==
              if last.Some? then AnswerOf(last.value) else ReadPreference(prefix, store, id)
  {
    if choices != [] {
      PreferencesIsolated(prefix, store, choices[..|choices|-1], id);
      ChoiceKeeps(prefix, ChooseAll(prefix, store, choices[..|choices|-1]), choices[|choices|-1], id);
    }
  }
}
