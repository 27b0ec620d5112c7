/** The request rules of the stories HTTP API (backend/main.go): post
    validation, trim-then-validate on create, the list limit, the client
    address, its peppered hash, and method dispatch. The database, the HTTP
    server and JSON encoding are inputs and outputs only. */
module Api {
  import opened Wrappers
  import opened Text

  const MaxStory := 4000
  const MaxFeeling := 100
  const DefaultLimit := 50
  const MaxLimit := 500
  const DefaultPepper := "dev-pepper"
  const HashLength := 12
  const MinInt := -0x8000_0000_0000_0000
  const MaxInt := 0x7FFF_FFFF_FFFF_FFFF

  // ---------------------------------------------------------------------
  // Values crossing the HTTP boundary.

  /** The JSON body of a create request. */
  datatype PostInput = PostInput(story: string, feeling: string, clientTz: string,
                                 clientLang: string, screen: string, platform: string)

  /** The request headers the handlers read (`Header.Get`, "" when absent). */
  datatype Headers = Headers(forwardedFor: string, userAgent: string,
                             acceptLanguage: string, referer: string)

  /** A request to `/api/posts`. `limit` is the raw `limit` query value
      ("" when absent); `body` is None when the body is not valid JSON. */
  datatype Request = Request(verb: string, headers: Headers, remoteAddr: string,
                             limit: string, body: Option<PostInput>)

  /** A stored post as the API returns it. */
  datatype Post = Post(id: int, story: string, feeling: string, createdAt: string)

  /** The row `createPost` hands to its INSERT; it is stored only when the
      insert succeeds (`Db.insertOk`). */
  datatype Row = Row(story: string, feeling: string, rawIp: string, ipHash: string,
                     userAgent: string, acceptLanguage: string, referer: string,
                     clientTz: string, clientLang: string, screen: string, platform: string)

  /** One row as the list query's scan sees it. */
  datatype RowRead = Scanned(post: Post) | ScanFailed

  /** What the database answers: whether the insert succeeds, the id and
      creation time it reports, whether the list query runs, and the rows
      the list query orders (newest first) before its `LIMIT`, which the
      model applies itself. The cursor's own error after the last row is
      never checked by `listPosts`, so a cursor that fails part-way is a
      shorter `rows`. */
  datatype Db = Db(insertOk: bool, newId: int, createdAt: string, queryOk: bool, rows: seq<RowRead>)

  /** A SHA-256 digest: 32 bytes. */
  type Digest = d: seq<bv8> | |d| == 32 witness seq(32, _ => 0 as bv8)

  /** The foreign collaborators: the `IP_HASH_PEPPER` value, SHA-256 of a
      string's bytes, and `net.SplitHostPort`'s host (None on error). */
  datatype Env = Env(pepper: string, sha256: string -> Digest, splitHost: string -> Option<string>)

  datatype Response =
    | Created(post: Post)            // 201 with the post
    | Listed(posts: seq<Post>)       // 200 with the posts
    | NoContent                      // 204
    | HttpError(status: int, message: string)

  // ---------------------------------------------------------------------
  // Post validation.

  datatype PostError = StoryRequired | StoryTooLong | FeelingRequired | FeelingTooLong

  function ErrorMessage(e: PostError): string {
    match e
    case StoryRequired => "story is required"
    case StoryTooLong => "story is too long (max 4000 chars)"
    case FeelingRequired => "feeling is required"
    case FeelingTooLong => "feeling is too long (max 100 chars)"
  }

  /** `validatePost`: an error exactly when the story is empty or over 4000,
      or the feeling is empty or over 100; the checks run in that order and
      the first that fails names the error. */
  function ValidatePost(story: string, feeling: string): (r: Option<PostError>)
    ensures r.None? <==> story != [] && |story| <= MaxStory && feeling != [] && |feeling| <= MaxFeeling
    ensures r == Some(StoryRequired) <==> story == []
    ensures r == Some(StoryTooLong) <==> story != [] && |story| > MaxStory
    ensures r == Some(FeelingRequired) <==> story != [] && |story| <= MaxStory && feeling == []
    ensures r == Some(FeelingTooLong) <==>
      story != [] && |story| <= MaxStory && feeling != [] && |feeling| > MaxFeeling
  {
    if story == [] then Some(StoryRequired)
    else if |story| > MaxStory then Some(StoryTooLong)
    else if feeling == [] then Some(FeelingRequired)
    else if |feeling| > MaxFeeling then Some(FeelingTooLong)
    else None
  }

  // ---------------------------------------------------------------------
  // The client address and its hash.

  /** `strings.Split(s, ",")[0]`: everything before the first comma. */
  function FirstField(s: string): (r: string)
    ensures |r| <= |s| && r == s[..|r|]
    ensures forall i :: 0 <= i < |r| ==> r[i] != ','
    ensures |r| < |s| ==> s[|r|] == ','
  {
    if s == [] || s[0] == ',' then [] else [s[0]] + FirstField(s[1..])
  }

  /** The `X-Forwarded-For` part of `clientIP`: the header's first
      comma-separated element, trimmed; empty when it gives nothing. */
  function ForwardedClient(xff: string): (ip: string)
    ensures ip == Trim(Go, FirstField(Trim(Go, xff)))
    ensures ip == [] <==> AllSpace(Go, FirstField(Trim(Go, xff)))
    ensures Trimmed(Go, ip)
    ensures forall i :: 0 <= i < |ip| ==> ip[i] != ','
  {
    var x := Trim(Go, xff);
    if x != [] then
      var field := FirstField(x);
      TrimKeepsNoComma(field);
      Trim(Go, field)
    else []
  }

  /** Trimming a comma-free string leaves it comma-free. */
  lemma TrimKeepsNoComma(s: string)
    requires forall i :: 0 <= i < |s| ==> s[i] != ','
    ensures forall i :: 0 <= i < |Trim(Go, s)| ==> Trim(Go, s)[i] != ','
  {
    var r, k := Trim(Go, s), LeadingSpace(Go, s);
    TrimInfix(Go, s);
    forall i | 0 <= i < |r|
      ensures r[i] != ','
    {
      assert r[i] == s[k..k + |r|][i] == s[k + i];
    }
  }

  /** `clientIP`: the forwarded client when the header names one, else the
      host part of the remote address when it splits into a non-empty host,
      else the remote address as it is. */
  function ClientIP(h: Headers, remoteAddr: string, splitHost: string -> Option<string>): (r: string)
    ensures ForwardedClient(h.forwardedFor) != [] ==> r == ForwardedClient(h.forwardedFor)
    ensures (ForwardedClient(h.forwardedFor) == [] && splitHost(remoteAddr).Some?
             && splitHost(remoteAddr).value != []) ==> r == splitHost(remoteAddr).value
    ensures (ForwardedClient(h.forwardedFor) == [] && !(splitHost(remoteAddr).Some?
             && splitHost(remoteAddr).value != [])) ==> r == remoteAddr
    ensures r != remoteAddr ==> r != []
  {
    var ip := ForwardedClient(h.forwardedFor);
    if ip != [] then ip
    else match splitHost(remoteAddr)
      case Some(host) => if host != [] then host else remoteAddr
      case None => remoteAddr
  }

  predicate IsLowerHex(c: char) {
    ('0' <= c <= '9') || ('a' <= c <= 'f')
  }

  /** The value of a lower-case hex digit. */
  function HexValue(c: char): (d: nat)
    requires IsLowerHex(c)
    ensures d < 16
  {
    if '0' <= c <= '9' then c as int - '0' as int else c as int - 'a' as int + 10
  }

  /** The lower-case hex digit of a value below 16. */
  function HexDigit(d: nat): (c: char)
    requires d < 16
    ensures IsLowerHex(c) && HexValue(c) == d
  {
    if d < 10 then ('0' as int + d) as char else ('a' as int + d - 10) as char
  }

  /** A byte as two lower-case hex digits, high nibble first. */
  function HexByte(b: bv8): (r: string)
    ensures |r| == 2 && IsLowerHex(r[0]) && IsLowerHex(r[1])
    ensures 16 * HexValue(r[0]) + HexValue(r[1]) == b as int
  {
    var v := b as int;
    HexPair(v);
    [HexDigit(v / 16), HexDigit(v % 16)]
  }

  /** The two digits of a byte value read back as that value. */
  lemma HexPair(v: int)
    requires 0 <= v < 256
    ensures 0 <= v / 16 < 16 && 0 <= v % 16 < 16
    ensures var r := [HexDigit(v / 16), HexDigit(v % 16)];
      IsLowerHex(r[0]) && IsLowerHex(r[1]) && 16 * HexValue(r[0]) + HexValue(r[1]) == v
  {
    var hi, lo := v / 16, v % 16;
    assert 16 * hi + lo == v;
    assert HexValue(HexDigit(hi)) == hi && HexValue(HexDigit(lo)) == lo;
  }

  /** `hex.EncodeToString`: two lower-case hex digits per byte. */
  function Hex(bs: seq<bv8>): (r: string)
    ensures |r| == 2 * |bs|
    ensures forall i :: 0 <= i < |r| ==> IsLowerHex(r[i])
  {
    if bs == [] then [] else HexByte(bs[0]) + Hex(bs[1..])
  }

  /** Reads lower-case hex back into bytes, two digits per byte. */
  function Unhex(t: string): (bs: seq<bv8>)
    requires forall i :: 0 <= i < |t| ==> IsLowerHex(t[i])
    decreases |t|
  {
    if |t| < 2 then [] else [(16 * HexValue(t[0]) + HexValue(t[1])) as bv8] + Unhex(t[2..])
  }

  /** Decoding a byte's two digits followed by more hex. */
  lemma UnhexCons(h: string, rest: string, b: bv8)
    requires h == HexByte(b)
    requires forall i :: 0 <= i < |rest| ==> IsLowerHex(rest[i])
    ensures forall i :: 0 <= i < |h + rest| ==> IsLowerHex((h + rest)[i])
    ensures Unhex(h + rest) == [b] + Unhex(rest)
  {
    var t := h + rest;
    assert t[0] == h[0] && t[1] == h[1] && t[2..] == rest;
    var v := 16 * HexValue(t[0]) + HexValue(t[1]);
    assert v == b as int;
    assert v as bv8 == b;
  }

  /** Hex encoding loses nothing: decoding it gives back the bytes, so
      different bytes have different hex. */
  lemma {:induction false} UnhexHex(bs: seq<bv8>)
    ensures Unhex(Hex(bs)) == bs
  {
    if bs != [] {
      UnhexCons(HexByte(bs[0]), Hex(bs[1..]), bs[0]);
      UnhexHex(bs[1..]);
      assert [bs[0]] + bs[1..] == bs;
    }
  }

  /** A blank pepper falls back to "dev-pepper"; any other is used as given. */
  function EffectivePepper(pepper: string): (r: string)
    ensures r != [] && !AllSpace(Go, r)
    ensures AllSpace(Go, pepper) ==> r == DefaultPepper
    ensures !AllSpace(Go, pepper) ==> r == pepper
  {
    assert !IsSpace(Go, DefaultPepper[0]);
    if Trim(Go, pepper) == [] then DefaultPepper else pepper
  }

  /** `hashIP`: "" for a blank address; otherwise the first 12 hex digits of
      SHA-256 of `ip + "|" + pepper`, which are the hex of its first six
      bytes. */
  function HashIP(ip: string, pepper: string, sha256: string -> Digest): (r: string)
    ensures r == [] <==> AllSpace(Go, ip)
    ensures !AllSpace(Go, ip) ==> |r| == HashLength
    ensures forall i :: 0 <= i < |r| ==> IsLowerHex(r[i])
    ensures !AllSpace(Go, ip) ==>
      var digest: Digest := sha256(ip + "|" + EffectivePepper(pepper));
      r == Hex(digest[..HashLength / 2])
  {
    if Trim(Go, ip) == [] then []
    else
      ShortHex(sha256(ip + "|" + EffectivePepper(pepper)))
  }

  /** `hex.EncodeToString(sum[:])[:12]`: the first 12 hex digits of a digest,
      which are the hex of its first six bytes. */
  function ShortHex(d: Digest): (r: string)
    ensures |r| == HashLength
    ensures forall i :: 0 <= i < |r| ==> IsLowerHex(r[i])
    ensures r == Hex(d[..HashLength / 2])
  {
    HexOfDigestPrefix(d);
    Hex(d)[..HashLength]
  }

  /** The first 12 hex digits of a digest are the hex of its first six bytes. */
  lemma HexOfDigestPrefix(d: Digest)
    ensures |Hex(d)| == 64
    ensures Hex(d)[..HashLength] == Hex(d[..HashLength / 2])
  {
    HexPrefix(d, HashLength / 2);
  }

  /** The hex of a prefix is the prefix of the hex. */
  lemma {:induction false} HexPrefix(bs: seq<bv8>, k: nat)
    requires k <= |bs|
    ensures Hex(bs)[..2 * k] == Hex(bs[..k])
  {
    if k > 0 {
      assert bs[..k][0] == bs[0] && bs[..k][1..] == bs[1..][..k - 1];
      HexPrefix(bs[1..], k - 1);
      assert Hex(bs)[..2 * k] == HexByte(bs[0]) + Hex(bs[1..])[..2 * (k - 1)];
    } else {
      assert bs[..k] == [];
    }
  }

  // ---------------------------------------------------------------------
  // The list limit.

  predicate IsDigit(c: char) {
    '0' <= c <= '9'
  }

  predicate AllDigits(s: string) {
    forall i :: 0 <= i < |s| ==> IsDigit(s[i])
  }

  /** The value of a string of decimal digits. */
  function DigitsValue(s: string): nat
    requires AllDigits(s)
    decreases |s|
  {
    if s == [] then 0 else 10 * DigitsValue(s[..|s| - 1]) + (s[|s| - 1] as int - '0' as int)
  }

  /** A string without its one leading sign, if it has one. */
  function Unsigned(s: string): (d: string)
    ensures |d| <= |s|
    ensures s != [] && (s[0] == '+' || s[0] == '-') ==> d == s[1..]
    ensures !(s != [] && (s[0] == '+' || s[0] == '-')) ==> d == s
  {
    if s != [] && (s[0] == '+' || s[0] == '-') then s[1..] else s
  }

  /** An optional sign followed by one or more decimal digits. */
  predicate IsNumeral(s: string) {
    var d := Unsigned(s);
    d != [] && AllDigits(d)
  }

  /** The value a numeral denotes. */
  function NumeralValue(s: string): int
    requires IsNumeral(s)
  {
    var d := Unsigned(s);
    if s != [] && s[0] == '-' then -(DigitsValue(d) as int) else DigitsValue(d)
  }

  /** `strconv.Atoi` on a 64-bit platform: a numeral whose value fits in 64
      bits parses to that value; anything else is an error. */
  function Atoi(s: string): (r: Option<int>)
    ensures r.Some? <==> IsNumeral(s) && MinInt <= NumeralValue(s) <= MaxInt
    ensures r.Some? ==> r.value == NumeralValue(s)
  {
    var signed := s != [] && (s[0] == '+' || s[0] == '-');
    var digits := if signed then s[1..] else s;
    if digits == [] || !AllDigits(digits) then None
    else
      var v: int := if signed && s[0] == '-' then -(DigitsValue(digits) as int) else DigitsValue(digits);
      if v < MinInt || v > MaxInt then None else Some(v)
  }

  /** Atoi rejects any string with a character other than a digit after its
      optional sign, such as "12abc", "1.5" or "--5". */
  lemma AtoiRejectsNonDigit(s: string, i: nat)
    requires i < |s| && !IsDigit(s[i])
    requires i > 0 || (s[0] != '+' && s[0] != '-')
    ensures Atoi(s).None?
  {
    var d := Unsigned(s);
    if s[0] == '+' || s[0] == '-' {
      assert d[i - 1] == s[i];
    } else {
      assert d[i] == s[i];
    }
  }

  /** The limit `listPosts` queries with: the trimmed `limit` parameter when
      it parses to a number from 1 to 500, otherwise 50. */
  function ListLimit(raw: string): (limit: int)
    ensures 1 <= limit <= MaxLimit
    ensures Atoi(Trim(Go, raw)).Some? && 1 <= Atoi(Trim(Go, raw)).value <= MaxLimit ==>
      limit == Atoi(Trim(Go, raw)).value
    ensures !(Atoi(Trim(Go, raw)).Some? && 1 <= Atoi(Trim(Go, raw)).value <= MaxLimit) ==>
      limit == DefaultLimit
  {
    var v := Trim(Go, raw);
    if v != [] then
      match Atoi(v)
      case Some(n) => if n > 0 && n <= MaxLimit then n else DefaultLimit
      case None => DefaultLimit
    else DefaultLimit
  }

  function DigitChar(d: nat): (c: char)
    requires d < 10
    ensures IsDigit(c) && c as int - '0' as int == d
  {
    ('0' as int + d) as char
  }

  /** The decimal form of a natural number, as a client would write it. */
  function ShowNat(n: nat): (r: string)
    ensures r != [] && AllDigits(r)
    ensures DigitsValue(r) == n
    decreases n
  {
    if n < 10 then [DigitChar(n)]
    else
      var r := ShowNat(n / 10) + [DigitChar(n % 10)];
      assert r[..|r| - 1] == ShowNat(n / 10);
      r
  }

  /** Atoi reads back what ShowNat writes, with or without a sign. */
  lemma AtoiShowNat(n: nat)
    requires n <= MaxInt
    ensures Atoi(ShowNat(n)) == Some(n)
    ensures Atoi("+" + ShowNat(n)) == Some(n)
    ensures Atoi("-" + ShowNat(n)) == Some(-(n as int))
  {
    var s := ShowNat(n);
    AtoiPlain(s);
    AtoiSign('+', s);
    AtoiSign('-', s);
    assert "+" + s == ['+'] + s && "-" + s == ['-'] + s;
  }

  /** Atoi of a digit string without a sign. */
  lemma AtoiPlain(d: string)
    requires d != [] && AllDigits(d) && DigitsValue(d) <= MaxInt
    ensures Atoi(d) == Some(DigitsValue(d))
  {
    assert IsDigit(d[0]);
    assert Unsigned(d) == d;
    assert NumeralValue(d) == DigitsValue(d);
  }

  /** Atoi of a digit string behind a sign. */
  lemma AtoiSign(c: char, d: string)
    requires c == '+' || c == '-'
    requires d != [] && AllDigits(d) && DigitsValue(d) <= MaxInt
    ensures Atoi([c] + d) == Some(if c == '-' then -(DigitsValue(d) as int) else DigitsValue(d))
  {
    var s := [c] + d;
    assert s[0] == c && s[1..] == d;
    assert Unsigned(s) == d;
    assert NumeralValue(s) == if c == '-' then -(DigitsValue(d) as int) else DigitsValue(d);
  }

  /** A limit written as 1..500 (surrounding whitespace allowed) is used as
      it is; a missing parameter means 50. */
  lemma ListLimitOfNumber(n: nat, pre: string, post: string)
    requires 1 <= n <= MaxLimit
    requires AllSpace(Go, pre) && AllSpace(Go, post)
    ensures ListLimit(pre + ShowNat(n) + post) == n
    ensures ListLimit("") == DefaultLimit
  {
    var s := ShowNat(n);
    AtoiShowNat(n);
    DigitsTrimmed(s);
    TrimAround(pre, s, post);
    assert Trim(Go, "") == [];
  }

  /** A digit string has no whitespace at its ends. */
  lemma DigitsTrimmed(s: string)
    requires s != [] && AllDigits(s)
    ensures Trimmed(Go, s)
  {
    assert IsDigit(s[0]) && IsDigit(s[|s| - 1]);
  }

  /** Leading whitespace before a non-space character is all that
      TrimStart removes. */
  lemma {:induction false} TrimStartSkips(pre: string, s: string)
    requires AllSpace(Go, pre)
    requires s != [] && !IsSpace(Go, s[0])
    ensures TrimStart(Go, pre + s) == s
  {
    if pre != [] {
      assert (pre + s)[0] == pre[0];
      assert (pre + s)[1..] == pre[1..] + s;
      TrimStartSkips(pre[1..], s);
    } else {
      assert pre + s == s;
    }
  }

  /** Trailing whitespace after a non-space character is all that TrimEnd
      removes. */
  lemma TrimEndSkips(s: string, post: string)
    requires AllSpace(Go, post)
    requires s != [] && !IsSpace(Go, s[|s| - 1])
    ensures TrimEnd(Go, s + post) == s
  {
    var t := s + post;
    var r := TrimEnd(Go, t);
    assert t[|s| - 1] == s[|s| - 1];
    assert r == t[..|s|] == s;
  }

  /** Trimming whitespace from both sides of a trimmed non-empty string. */
  lemma TrimAround(pre: string, s: string, post: string)
    requires s != [] && Trimmed(Go, s)
    requires AllSpace(Go, pre) && AllSpace(Go, post)
    ensures Trim(Go, pre + s + post) == s
  {
    assert pre + s + post == pre + (s + post);
    assert (s + post)[0] == s[0];
    TrimStartSkips(pre, s + post);
    TrimEndSkips(s, post);
  }

  // ---------------------------------------------------------------------
  // The forwarded client.

  lemma {:induction false} FirstFieldBeforeComma(a: string, b: string)
    requires forall i :: 0 <= i < |a| ==> a[i] != ','
    ensures FirstField(a + "," + b) == a
  {
    if a != [] {
      assert (a + "," + b)[1..] == a[1..] + "," + b;
      FirstFieldBeforeComma(a[1..], b);
      assert [a[0]] + a[1..] == a;
    }
  }

  /** `X-Forwarded-For: <client>, <proxy>, ...` yields the client, whatever
      whitespace surrounds it and whatever follows the first comma. */
  lemma ForwardedClientIsFirstHop(pre: string, ip: string, post: string, rest: string)
    requires ip != [] && Trimmed(Go, ip)
    requires forall i :: 0 <= i < |ip| ==> ip[i] != ','
    requires AllSpace(Go, pre) && AllSpace(Go, post)
    ensures ForwardedClient(pre + ip + post + "," + rest) == ip
  {
    var field := ip + post;
    NoCommaInField(ip, post);
    var t := field + "," + rest;
    assert pre + ip + post + "," + rest == pre + t;
    assert t[0] == ip[0];
    TrimAfterSpace(pre, t);
    var x := TrimEndAfterComma(field, rest);
    assert Trim(Go, pre + ip + post + "," + rest) == x;
    FirstFieldBeforeComma(field, x[|field| + 1..]);
    assert FirstField(x) == field;
    TrimTrailing(ip, post);
  }

  /** Trailing whitespace after a trimmed address trims away. */
  lemma TrimTrailing(ip: string, post: string)
    requires ip != [] && Trimmed(Go, ip)
    requires AllSpace(Go, post)
    ensures Trim(Go, ip + post) == ip
  {
    assert [] + ip + post == ip + post;
    TrimAround([], ip, post);
  }

  /** A comma-free address followed by whitespace is still comma-free. */
  lemma NoCommaInField(ip: string, post: string)
    requires forall i :: 0 <= i < |ip| ==> ip[i] != ','
    requires AllSpace(Go, post)
    ensures forall i :: 0 <= i < |ip + post| ==> (ip + post)[i] != ','
  {
    forall i | 0 <= i < |ip + post|
      ensures (ip + post)[i] != ','
    {
      if i >= |ip| {
        assert IsSpace(Go, post[i - |ip|]);
      }
    }
  }

  /** `X-Forwarded-For: <client>` with a single address, whatever whitespace
      surrounds it, yields that address. */
  lemma ForwardedClientSingle(pre: string, ip: string, post: string)
    requires ip != [] && Trimmed(Go, ip)
    requires forall i :: 0 <= i < |ip| ==> ip[i] != ','
    requires AllSpace(Go, pre) && AllSpace(Go, post)
    ensures ForwardedClient(pre + ip + post) == ip
  {
    TrimAround(pre, ip, post);
    FirstFieldWhole(ip);
    TrimOfTrimmed(Go, ip);
  }

  /** A string without a comma is its own first field. */
  lemma FirstFieldWhole(s: string)
    requires forall i :: 0 <= i < |s| ==> s[i] != ','
    ensures FirstField(s) == s
  {
  }

  /** A header whose first element is blank, such as `, 10.0.0.1`, names no
      forwarded client, whatever follows. */
  lemma ForwardedClientBlankFirst(pre: string, rest: string)
    requires AllSpace(Go, pre)
    ensures ForwardedClient(pre + "," + rest) == []
  {
    TrimKeepsLeadingComma(pre, rest);
    var x := Trim(Go, pre + "," + rest);
    assert FirstField(x) == [];
  }

  /** Trimming `pre + "," + rest` keeps the comma in front. */
  lemma TrimKeepsLeadingComma(pre: string, rest: string)
    requires AllSpace(Go, pre)
    ensures var x := Trim(Go, pre + "," + rest); x != [] && x[0] == ','
  {
    var t := "," + rest;
    assert pre + "," + rest == pre + t;
    assert t[0] == ',';
    TrimAfterSpace(pre, t);
    TrimEndKeeps(t, 0);
    var x := TrimEnd(Go, t);
    assert x[0] == x[..|x|][0] == t[0];
  }

  /** TrimEnd never removes a non-space character, nor anything before it. */
  lemma TrimEndKeeps(t: string, k: nat)
    requires k < |t| && !IsSpace(Go, t[k])
    ensures k < |TrimEnd(Go, t)|
  {
  }

  /** With only whitespace before it, trimming `pre + t` trims the end of `t`. */
  lemma TrimAfterSpace(pre: string, t: string)
    requires AllSpace(Go, pre)
    requires t != [] && !IsSpace(Go, t[0])
    ensures Trim(Go, pre + t) == TrimEnd(Go, t)
  {
    TrimStartSkips(pre, t);
  }

  /** Trimming the end of `field + "," + rest` keeps `field` and the comma. */
  lemma TrimEndAfterComma(field: string, rest: string) returns (x: string)
    ensures x == TrimEnd(Go, field + "," + rest)
    ensures |x| > |field| && x == field + "," + x[|field| + 1..]
  {
    var t := field + "," + rest;
    assert t[|field|] == ',';
    TrimEndKeeps(t, |field|);
    x := TrimEnd(Go, t);
    var head := x[..|field| + 1];
    assert head == t[..|field| + 1] == field + ",";
    assert x == head + x[|field| + 1..];
  }

  // ---------------------------------------------------------------------
  // The handlers.

  /** `createPost`: trim the story and feeling, validate the trimmed pair,
      and only then build the row and attempt its insert. `attempted` is the
      row handed to the INSERT, stored only when `db.insertOk`. A rejected
      request attempts nothing; an accepted one echoes the trimmed values. */
  method CreatePost(req: Request, env: Env, db: Db) returns (resp: Response, attempted: Option<Row>)
    ensures req.body.None? ==> resp == HttpError(400, "invalid JSON body") && attempted.None?
    ensures req.body.Some? ==>
      var err := ValidatePost(Trim(Go, req.body.value.story), Trim(Go, req.body.value.feeling));
      err.Some? ==> resp == HttpError(400, ErrorMessage(err.value)) && attempted.None?
    ensures attempted.Some? ==> req.body.Some?
    ensures attempted.Some? ==>
      var w, input := attempted.value, req.body.value;
      var ip := ClientIP(req.headers, req.remoteAddr, env.splitHost);
      && w.story == Trim(Go, input.story) && w.feeling == Trim(Go, input.feeling)
      && ValidatePost(w.story, w.feeling).None?
      && w.rawIp == Trim(Go, ip) && w.ipHash == HashIP(ip, env.pepper, env.sha256)
      && w.userAgent == Trim(Go, req.headers.userAgent)
      && w.acceptLanguage == Trim(Go, req.headers.acceptLanguage)
      && w.referer == Trim(Go, req.headers.referer)
      && w.clientTz == Trim(Go, input.clientTz) && w.clientLang == Trim(Go, input.clientLang)
      && w.screen == Trim(Go, input.screen) && w.platform == Trim(Go, input.platform)
      && resp == (if db.insertOk then Created(Post(db.newId, w.story, w.feeling, db.createdAt))
                  else HttpError(500, "failed to save post"))
    ensures req.body.Some? && ValidatePost(Trim(Go, req.body.value.story), Trim(Go, req.body.value.feeling)).None?
      ==> attempted.Some?
  {
    if req.body.None? {
      return HttpError(400, "invalid JSON body"), None;
    }
    var input := req.body.value;
    input := input.(story := Trim(Go, input.story));
    input := input.(feeling := Trim(Go, input.feeling));
    var err := ValidatePost(input.story, input.feeling);
    if err.Some? {
      return HttpError(400, ErrorMessage(err.value)), None;
    }
    var ip := ClientIP(req.headers, req.remoteAddr, env.splitHost);
    var ipHash := HashIP(ip, env.pepper, env.sha256);
    var row := Row(input.story, input.feeling, Trim(Go, ip), ipHash,
                   Trim(Go, req.headers.userAgent), Trim(Go, req.headers.acceptLanguage),
                   Trim(Go, req.headers.referer), Trim(Go, input.clientTz),
                   Trim(Go, input.clientLang), Trim(Go, input.screen), Trim(Go, input.platform));
    attempted := Some(row);
    if !db.insertOk {
      resp := HttpError(500, "failed to save post");
    } else {
      resp := Created(Post(db.newId, input.story, input.feeling, db.createdAt));
    }
  }

  /** Every row read successfully. */
  predicate AllScanned(rows: seq<RowRead>) {
    forall i :: 0 <= i < |rows| ==> rows[i].Scanned?
  }

  /** The posts of rows that all scanned, in order. */
  function PostsOf(rows: seq<RowRead>): (posts: seq<Post>)
    requires AllScanned(rows)
    ensures |posts| == |rows|
    ensures forall i :: 0 <= i < |rows| ==> posts[i] == rows[i].post
  {
    seq(|rows|, i requires 0 <= i < |rows| => rows[i].post)
  }

  /** The `rows.Next`/`rows.Scan` loop of `listPosts`: append each row's post
      in order, stopping at the first row that fails to scan. */
  method ScanRows(rows: seq<RowRead>) returns (posts: Option<seq<Post>>)
    ensures AllScanned(rows) ==> posts == Some(PostsOf(rows))
    ensures !AllScanned(rows) ==> posts.None?
  {
    var acc: seq<Post> := [];
    var i := 0;
    while i < |rows|
      invariant 0 <= i <= |rows|
      invariant forall j :: 0 <= j < i ==> rows[j].Scanned?
      invariant |acc| == i
      invariant forall j :: 0 <= j < i ==> acc[j] == rows[j].post
    {
      if rows[i].ScanFailed? {
        return None;
      }
      acc := acc + [rows[i].post];
      i := i + 1;
    }
    assert acc == PostsOf(rows);
    posts := Some(acc);
  }

  /** `listPosts`: query with the effective limit (the query's `LIMIT ?`,
      applied here to `db.rows`), then append each scanned row in order;
      any scan failure answers 500 instead. */
  method ListPosts(req: Request, db: Db) returns (resp: Response)
    ensures !db.queryOk ==> resp == HttpError(500, "failed to query posts")
    ensures db.queryOk ==>
      var rows := db.rows[..Min(|db.rows|, ListLimit(req.limit))];
      && (AllScanned(rows) ==> resp == Listed(PostsOf(rows)))
      && (!AllScanned(rows) ==> resp == HttpError(500, "failed to read posts"))
    ensures resp.Listed? ==> |resp.posts| <= ListLimit(req.limit) <= MaxLimit
  {
    var limit := ListLimit(req.limit);
    if !db.queryOk {
      return HttpError(500, "failed to query posts");
    }
    var rows := db.rows[..Min(|db.rows|, limit)];
    assert |rows| <= limit <= MaxLimit;
    var posts := ScanRows(rows);
    if posts.None? {
      return HttpError(500, "failed to read posts");
    }
    assert |posts.value| == |rows|;
    resp := Listed(posts.value);
  }

  /** Which branch of `handlePosts` a method takes. */
  datatype Handler = CreateHandler | ListHandler | PreflightHandler | NotAllowedHandler

  /** `handlePosts`' switch: POST creates, GET lists, OPTIONS answers 204
      and every other method (compared case-sensitively) is refused. */
  function Route(verb: string): (h: Handler)
    ensures h == CreateHandler <==> verb == "POST"
    ensures h == ListHandler <==> verb == "GET"
    ensures h == PreflightHandler <==> verb == "OPTIONS"
    ensures h == NotAllowedHandler <==> verb != "POST" && verb != "GET" && verb != "OPTIONS"
  {
    if verb == "POST" then CreateHandler
    else if verb == "GET" then ListHandler
    else if verb == "OPTIONS" then PreflightHandler
    else NotAllowedHandler
  }

  /** `handlePosts`: dispatch on the method. Only POST attempts an insert; OPTIONS
      answers 204 and any other unknown method 405. */
  method HandlePosts(req: Request, env: Env, db: Db) returns (resp: Response, attempted: Option<Row>)
    ensures Route(req.verb) != CreateHandler ==> attempted.None?
    ensures Route(req.verb) == PreflightHandler ==> resp == NoContent
    ensures Route(req.verb) == NotAllowedHandler ==> resp == HttpError(405, "method not allowed")
    ensures Route(req.verb) == CreateHandler ==> resp.Created? || (resp.HttpError? && resp.status in {400, 500})
    ensures Route(req.verb) == ListHandler ==> resp.Listed? || resp.HttpError?
    ensures resp.Created? ==> req.verb == "POST" && attempted.Some?
  {
    match Route(req.verb)
    case CreateHandler =>
      resp, attempted := CreatePost(req, env, db);
    case ListHandler =>
      resp := ListPosts(req, db);
      attempted := None;
    case PreflightHandler =>
      resp, attempted := NoContent, None;
    case NotAllowedHandler =>
      resp, attempted := HttpError(405, "method not allowed"), None;
  }
}
