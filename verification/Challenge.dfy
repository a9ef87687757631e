// The stateless wallet challenge of the web issuer (apps/web/src/lib/permit-issuer.ts): its printer, the
// parser of its clock, and the times of the permit issued from it.
module Challenge {
  import opened Options
  import opened Permits

  const NEWLINE: char := '\n'

  // ---- decimal numerals ----

  function Digit(d: nat): char
    requires d < 10
  {
    "0123456789"[d]
  }

  predicate IsDigit(c: char) {
    '0' <= c <= '9'
  }

  predicate AllDigits(s: string) {
    forall i | 0 <= i < |s| :: IsDigit(s[i])
  }

  // `${n}` of a non-negative integer.
  function Decimal(n: nat): (s: string)
    ensures |s| > 0 && AllDigits(s)
  {
    if n < 10 then [Digit(n)] else Decimal(n / 10) + [Digit(n % 10)]
  }

  // Number(s) of decimal digits.
  function Number(s: string): nat
    requires AllDigits(s)
  {
    if s == "" then 0 else 10 * Number(s[..|s| - 1]) + (s[|s| - 1] as int - '0' as int)
  }

  lemma {:induction false} NumberOfDecimal(n: nat)
    ensures Number(Decimal(n)) == n
  {
    if n >= 10 {
      NumberOfDecimal(n / 10);
      assert Decimal(n)[..|Decimal(n)| - 1] == Decimal(n / 10);
    }
  }

  function Pow10(k: nat): nat {
    if k == 0 then 1 else 10 * Pow10(k - 1)
  }

  lemma {:induction false} DecimalLength(n: nat, k: nat)
    requires k >= 1
    ensures |Decimal(n)| <= k <==> n < Pow10(k)
    decreases k
  {
    if k > 1 && n >= 10 { DecimalLength(n / 10, k - 1); }
    if k == 1 { assert Pow10(1) == 10; }
    if n < 10 { Pow10AtLeast(k); }
  }

  lemma {:induction false} Pow10AtLeast(k: nat)
    requires k >= 1
    ensures Pow10(k) >= 10
  {
    if k > 1 { Pow10AtLeast(k - 1); }
  }

  const MIN_CLOCK := 1_000_000_000
  const MAX_CLOCK := 9_999_999_999

  lemma TenDigits(n: nat)
    ensures |Decimal(n)| == 10 <==> MIN_CLOCK <= n <= MAX_CLOCK
  {
    DecimalLength(n, 9);
    DecimalLength(n, 10);
    assert Pow10(5) == 100_000;
    assert Pow10(9) == 1_000_000_000;
    assert Pow10(10) == 10_000_000_000;
  }

  // ---- lines ----

  predicate NoNewline(s: string) {
    NEWLINE !in s
  }

  // lines.join("\\n")
  function Join(lines: seq<string>): string
    requires lines != []
  {
    if |lines| == 1 then lines[0] else lines[0] + [NEWLINE] + Join(lines[1..])
  }

  // message.split("\\n")
  function Split(s: string): (lines: seq<string>)
    ensures lines != []
  {
    if s == "" then [""]
    else
      var rest := Split(s[1..]);
      if s[0] == NEWLINE then [""] + rest else [[s[0]] + rest[0]] + rest[1..]
  }

  lemma {:induction false} SplitFirst(line: string, rest: string)
    requires NoNewline(line)
    ensures Split(line + [NEWLINE] + rest) == [line] + Split(rest)
  {
    var s := line + [NEWLINE] + rest;
    if line == "" {
      assert s[1..] == rest;
    } else {
      assert line[0] in line && s[0] == line[0] && [line[0]] + line[1..] == line;
      assert s[1..] == line[1..] + [NEWLINE] + rest;
      SplitFirst(line[1..], rest);
    }
  }

  lemma {:induction false} SplitLine(line: string)
    requires NoNewline(line)
    ensures Split(line) == [line]
  {
    if line != "" {
      assert line[0] in line && [line[0]] + line[1..] == line;
      SplitLine(line[1..]);
    }
  }

  lemma {:induction false} SplitOfJoin(lines: seq<string>)
    requires lines != [] && forall l <- lines :: NoNewline(l)
    ensures Split(Join(lines)) == lines
  {
    if |lines| == 1 {
      SplitLine(lines[0]);
    } else {
      SplitOfJoin(lines[1..]);
      SplitFirst(lines[0], Join(lines[1..]));
    }
  }

  function Newlines(s: string): nat {
    if s == "" then 0 else (if s[0] == NEWLINE then 1 else 0) + Newlines(s[1..])
  }

  lemma {:induction false} SplitCounts(s: string)
    ensures |Split(s)| == 1 + Newlines(s)
  {
    if s != "" { SplitCounts(s[1..]); }
  }

  lemma {:induction false} NewlinesAdd(a: string, b: string)
    ensures Newlines(a + b) == Newlines(a) + Newlines(b)
  {
    if a == "" {
      assert a + b == b;
    } else {
      assert (a + b)[1..] == a[1..] + b;
      NewlinesAdd(a[1..], b);
    }
  }

  lemma {:induction false} NewlinesInside(s: string)
    ensures Newlines(s) == 0 <==> NoNewline(s)
  {
    if s != "" { NewlinesInside(s[1..]); }
  }

  // A newline inside a line adds a line.
  lemma {:induction false} JoinCounts(lines: seq<string>)
    requires lines != []
    ensures |Split(Join(lines))| >= |lines|
    ensures |Split(Join(lines))| == |lines| <==> forall l <- lines :: NoNewline(l)
  {
    SplitCounts(Join(lines));
    NewlinesInside(lines[0]);
    if |lines| > 1 {
      JoinCounts(lines[1..]);
      SplitCounts(Join(lines[1..]));
      NewlinesAdd(lines[0] + [NEWLINE], Join(lines[1..]));
      NewlinesAdd(lines[0], [NEWLINE]);
      assert lines == [lines[0]] + lines[1..];
    }
  }

  // ---- the message ----

  datatype Fields = Fields(
    hostname: string,
    origin: string,
    chainId: nat,
    controller: string,
    releaseId: string,
    requestId: string,
    name: string,
    requester: string,
    recipient: string,
    payer: string,
    executor: string,
    durationYears: nat,
    amount: nat,
    resolverDataHash: string,
    referrer: string,
    fingerprint: string,
    nonce: string,
    issuedAt: nat,
    expiresAt: nat)

  // A line of the message: fixed text around a value.
  datatype Part = Part(prefix: string, value: string, suffix: string)

  function SiteParts(f: Fields): seq<Part> {
    [ Part("Contour Name Protocol registration intent", "", ""),
      Part("Domain: ", f.hostname, ""),
      Part("Origin: ", f.origin, ""),
      Part("Chain ID: ", Decimal(f.chainId), ""),
      Part("Controller: ", f.controller, ""),
      Part("Release ID: ", f.releaseId, ""),
      Part("Request ID: ", f.requestId, "") ]
  }

  function PartyParts(f: Fields): seq<Part> {
    [ Part("Name: ", f.name, ""),
      Part("Requester: ", f.requester, ""),
      Part("Recipient: ", f.recipient, ""),
      Part("Payer: ", f.payer, ""),
      Part("Authorized executor: ", f.executor, ""),
      Part("Duration: ", Decimal(f.durationYears), " year(s)"),
      Part("Exact amount: ", Decimal(f.amount), " USDC base units") ]
  }

  function ProofParts(f: Fields): seq<Part> {
    [ Part("Resolver data hash: ", f.resolverDataHash, ""),
      Part("Referrer: ", f.referrer, ""),
      Part("Expected referral BPS: 0", "", ""),
      Part("Intent fingerprint: ", f.fingerprint, ""),
      Part("Challenge: ", f.nonce, ""),
      Part("Issued at: ", Decimal(f.issuedAt), ""),
      Part("Expires at: ", Decimal(f.expiresAt), "") ]
  }

  function Parts(f: Fields): seq<Part> {
    SiteParts(f) + PartyParts(f) + ProofParts(f)
  }

  function Line(p: Part): string {
    p.prefix + p.value + p.suffix
  }

  function LinesOf(parts: seq<Part>): (lines: seq<string>)
    ensures |lines| == |parts|
    ensures forall i | 0 <= i < |parts| :: lines[i] == Line(parts[i])
  {
    seq(|parts|, i requires 0 <= i < |parts| => Line(parts[i]))
  }

  function ChallengeMessage(f: Fields): string {
    Join(LinesOf(Parts(f)))
  }

  lemma PlainLine(prefix: string, value: string)
    ensures Line(Part(prefix, value, "")) == prefix + value && Line(Part(prefix, "", "")) == prefix
  {
  }

  lemma SiteLines(f: Fields)
    ensures LinesOf(SiteParts(f)) ==
            ["Contour Name Protocol registration intent", "Domain: " + f.hostname, "Origin: " + f.origin,
             "Chain ID: " + Decimal(f.chainId), "Controller: " + f.controller, "Release ID: " + f.releaseId,
             "Request ID: " + f.requestId]
  {
    PlainLine("Contour Name Protocol registration intent", "");
    PlainLine("Domain: ", f.hostname);
    PlainLine("Origin: ", f.origin);
    PlainLine("Chain ID: ", Decimal(f.chainId));
    PlainLine("Controller: ", f.controller);
    PlainLine("Release ID: ", f.releaseId);
    PlainLine("Request ID: ", f.requestId);
  }

  lemma PartyLines(f: Fields)
    ensures LinesOf(PartyParts(f)) ==
            ["Name: " + f.name, "Requester: " + f.requester, "Recipient: " + f.recipient, "Payer: " + f.payer,
             "Authorized executor: " + f.executor, "Duration: " + Decimal(f.durationYears) + " year(s)",
             "Exact amount: " + Decimal(f.amount) + " USDC base units"]
  {
    PlainLine("Name: ", f.name);
    PlainLine("Requester: ", f.requester);
    PlainLine("Recipient: ", f.recipient);
    PlainLine("Payer: ", f.payer);
    PlainLine("Authorized executor: ", f.executor);
  }

  lemma ProofLines(f: Fields)
    ensures LinesOf(ProofParts(f)) ==
            ["Resolver data hash: " + f.resolverDataHash, "Referrer: " + f.referrer, "Expected referral BPS: 0",
             "Intent fingerprint: " + f.fingerprint, "Challenge: " + f.nonce, "Issued at: " + Decimal(f.issuedAt),
             "Expires at: " + Decimal(f.expiresAt)]
  {
    PlainLine("Resolver data hash: ", f.resolverDataHash);
    PlainLine("Referrer: ", f.referrer);
    PlainLine("Expected referral BPS: 0", "");
    PlainLine("Intent fingerprint: ", f.fingerprint);
    PlainLine("Challenge: ", f.nonce);
    PlainLine("Issued at: ", Decimal(f.issuedAt));
    PlainLine("Expires at: ", Decimal(f.expiresAt));
  }

  // The lines stand one after the other, with a newline between them and none at the end.
  lemma {:induction false} MessageIsLines(f: Fields)
    ensures LinesOf(Parts(f)) == LinesOf(SiteParts(f)) + LinesOf(PartyParts(f)) + LinesOf(ProofParts(f))
    ensures ChallengeMessage(f) == Join(LinesOf(SiteParts(f)) + LinesOf(PartyParts(f)) + LinesOf(ProofParts(f)))
  {
  }

  predicate OneLineFields(f: Fields) {
    && NoNewline(f.hostname) && NoNewline(f.origin) && NoNewline(f.controller) && NoNewline(f.releaseId)
    && NoNewline(f.requestId) && NoNewline(f.name) && NoNewline(f.requester) && NoNewline(f.recipient)
    && NoNewline(f.payer) && NoNewline(f.executor) && NoNewline(f.resolverDataHash) && NoNewline(f.referrer)
    && NoNewline(f.fingerprint) && NoNewline(f.nonce)
  }

  // ---- the parser ----

  datatype Clock = Clock(nonce: string, issuedAt: nat, expiresAt: nat)

  datatype ClockError = InvalidShape | InvalidClock

  predicate IsHex(c: char) {
    '0' <= c <= '9' || 'a' <= c <= 'f' || 'A' <= c <= 'F'
  }

  lemma HexDigits(c: char)
    ensures IsHex(c) <==> c in "0123456789abcdefABCDEF"
  {
  }

  predicate IsNonce(s: string) {
    |s| == 66 && s[..2] == "0x" && forall i | 2 <= i < 66 :: IsHex(s[i])
  }

  // A nonce is "0x" and 64 hex digits.
  lemma NonceIsExact(s: string)
    ensures IsNonce(s) <==> exists digits :: |digits| == 64 && s == "0x" + digits && forall c <- digits :: IsHex(c)
  {
    if IsNonce(s) {
      assert s == "0x" + s[2..];
      assert forall c <- s[2..] :: IsHex(c);
    }
    if exists digits :: |digits| == 64 && s == "0x" + digits && forall c <- digits :: IsHex(c) {
      var digits :| |digits| == 64 && s == "0x" + digits && forall c <- digits :: IsHex(c);
      assert s[..2] == "0x" && forall i | 2 <= i < 66 :: s[i] == digits[i - 2];
    }
  }

  predicate IsClock(s: string) {
    |s| == 10 && AllDigits(s)
  }

  // What follows a fixed prefix, if the line has it.
  function After(prefix: string, line: string): (rest: Option<string>)
    ensures rest.Some? <==> prefix <= line
    ensures rest.Some? ==> line == prefix + rest.value
  {
    if prefix <= line then Some(line[|prefix|..]) else None
  }

  function ReadChallengeClock(message: string): Result<Clock, ClockError> {
    var lines := Split(message);
    if |lines| != 21 then Err(InvalidShape)
    else
      var nonce := After("Challenge: ", lines[18]);
      var issued := After("Issued at: ", lines[19]);
      var expires := After("Expires at: ", lines[20]);
      if nonce.None? || issued.None? || expires.None? then Err(InvalidClock)
      else if !IsNonce(nonce.value) || !IsClock(issued.value) || !IsClock(expires.value) then Err(InvalidClock)
      else Ok(Clock(nonce.value, Number(issued.value), Number(expires.value)))
  }

  // ---- round trip and injectivity ----

  ghost predicate FixedTextFits(p: Part) {
    NoNewline(p.prefix) && NoNewline(p.suffix)
  }

  ghost predicate AllFixedTextFits(parts: seq<Part>) {
    forall i | 0 <= i < |parts| :: FixedTextFits(parts[i])
  }

  lemma TitleWords()
    ensures NoNewline("")
    ensures NoNewline("Contour Name Protocol registration intent")
  {
  }

  lemma SiteWords()
    ensures NoNewline("Domain: ")
    ensures NoNewline("Origin: ")
    ensures NoNewline("Chain ID: ")
    ensures NoNewline("Controller: ")
    ensures NoNewline("Release ID: ")
    ensures NoNewline("Request ID: ")
  {
  }

  lemma PartyWords()
    ensures NoNewline("Name: ")
    ensures NoNewline("Requester: ")
    ensures NoNewline("Recipient: ")
    ensures NoNewline("Payer: ")
    ensures NoNewline("Authorized executor: ")
  {
  }

  lemma AmountWords()
    ensures NoNewline("Duration: ")
    ensures NoNewline(" year(s)")
    ensures NoNewline("Exact amount: ")
    ensures NoNewline(" USDC base units")
  {
  }

  lemma ProofWords()
    ensures NoNewline("Resolver data hash: ")
    ensures NoNewline("Referrer: ")
    ensures NoNewline("Expected referral BPS: 0")
  {
  }

  lemma ClockWords()
    ensures NoNewline("Intent fingerprint: ")
    ensures NoNewline("Challenge: ")
    ensures NoNewline("Issued at: ")
    ensures NoNewline("Expires at: ")
  {
  }

  lemma SiteText(f: Fields)
    ensures AllFixedTextFits(SiteParts(f))
  {
    TitleWords();
    SiteWords();
  }

  lemma PartyText(f: Fields)
    ensures AllFixedTextFits(PartyParts(f))
  {
    TitleWords();
    PartyWords();
    AmountWords();
  }

  lemma ProofText(f: Fields)
    ensures AllFixedTextFits(ProofParts(f))
  {
    TitleWords();
    ProofWords();
    ClockWords();
  }

  lemma FixedText(f: Fields)
    ensures AllFixedTextFits(Parts(f))
  {
    SiteText(f);
    PartyText(f);
    ProofText(f);
  }

  lemma ValuesOnOneLine(f: Fields)
    ensures OneLineFields(f) <==> forall i | 0 <= i < 21 :: NoNewline(Parts(f)[i].value)
  {
    var p := Parts(f);
    if forall i | 0 <= i < 21 :: NoNewline(p[i].value) {
      assert NoNewline(p[1].value) && NoNewline(p[2].value) && NoNewline(p[4].value) && NoNewline(p[5].value);
      assert NoNewline(p[6].value) && NoNewline(p[7].value) && NoNewline(p[8].value) && NoNewline(p[9].value);
      assert NoNewline(p[10].value) && NoNewline(p[11].value) && NoNewline(p[14].value) && NoNewline(p[15].value);
      assert NoNewline(p[17].value) && NoNewline(p[18].value);
    }
  }

  lemma LineOnOneLine(p: Part)
    requires FixedTextFits(p)
    ensures NoNewline(Line(p)) <==> NoNewline(p.value)
  {
    forall c <- p.value ensures c in Line(p) {
      var i :| 0 <= i < |p.value| && p.value[i] == c;
      assert Line(p)[|p.prefix| + i] == c;
    }
  }

  lemma LinesOnOneLine(parts: seq<Part>)
    requires AllFixedTextFits(parts)
    ensures (forall l <- LinesOf(parts) :: NoNewline(l)) <==> forall i | 0 <= i < |parts| :: NoNewline(parts[i].value)
  {
    forall i | 0 <= i < |parts| ensures NoNewline(LinesOf(parts)[i]) <==> NoNewline(parts[i].value) {
      LineOnOneLine(parts[i]);
    }
    if forall l <- LinesOf(parts) :: NoNewline(l) {
      forall i | 0 <= i < |parts| ensures NoNewline(parts[i].value) { assert LinesOf(parts)[i] in LinesOf(parts); }
    }
  }

  lemma MessageLines(f: Fields)
    ensures OneLineFields(f) ==> Split(ChallengeMessage(f)) == LinesOf(Parts(f))
    ensures |Split(ChallengeMessage(f))| == 21 <==> OneLineFields(f)
  {
    FixedText(f);
    ValuesOnOneLine(f);
    var parts := Parts(f);
    LinesOnOneLine(parts);
    JoinCounts(LinesOf(parts));
    if OneLineFields(f) { SplitOfJoin(LinesOf(parts)); }
  }

  predicate TenDigitClock(t: nat) {
    MIN_CLOCK <= t <= MAX_CLOCK
  }

  lemma ClockLines(f: Fields, lines: seq<string>)
    requires lines == LinesOf(Parts(f))
    ensures After("Challenge: ", lines[18]) == Some(f.nonce)
    ensures After("Issued at: ", lines[19]) == Some(Decimal(f.issuedAt))
    ensures After("Expires at: ", lines[20]) == Some(Decimal(f.expiresAt))
  {
    assert lines[18] == Line(ProofParts(f)[4]) && lines[19] == Line(ProofParts(f)[5])
           && lines[20] == Line(ProofParts(f)[6]);
    AfterPrefix("Challenge: ", f.nonce);
    AfterPrefix("Issued at: ", Decimal(f.issuedAt));
    AfterPrefix("Expires at: ", Decimal(f.expiresAt));
  }

  lemma AfterPrefix(prefix: string, value: string)
    ensures After(prefix, prefix + value + "") == Some(value)
  {
    assert prefix + value + "" == prefix + value;
  }

  // The parser reads back the clock of a printed message exactly when no field breaks a line, the nonce is
  // bytes32 and both times have ten digits; then it recovers all three.
  lemma ClockRoundTrip(f: Fields)
    ensures ReadChallengeClock(ChallengeMessage(f)).Ok? <==>
            OneLineFields(f) && IsNonce(f.nonce) && TenDigitClock(f.issuedAt) && TenDigitClock(f.expiresAt)
    ensures ReadChallengeClock(ChallengeMessage(f)).Ok? ==>
              ReadChallengeClock(ChallengeMessage(f)).value == Clock(f.nonce, f.issuedAt, f.expiresAt)
  {
    MessageLines(f);
    if OneLineFields(f) {
      ClockLines(f, LinesOf(Parts(f)));
      TenDigits(f.issuedAt);
      TenDigits(f.expiresAt);
      NumberOfDecimal(f.issuedAt);
      NumberOfDecimal(f.expiresAt);
    }
  }

  lemma SameValue(p: Part, q: Part)
    requires p.prefix == q.prefix && p.suffix == q.suffix && Line(p) == Line(q)
    ensures p.value == q.value
  {
    assert Line(p)[|p.prefix|..|Line(p)| - |p.suffix|] == p.value;
    assert Line(q)[|q.prefix|..|Line(q)| - |q.suffix|] == q.value;
  }

  lemma SameParts(a: seq<Part>, b: seq<Part>)
    requires |a| == |b| && LinesOf(a) == LinesOf(b)
    requires forall i | 0 <= i < |a| :: a[i].prefix == b[i].prefix && a[i].suffix == b[i].suffix
    ensures a == b
  {
    forall i | 0 <= i < |a| ensures a[i] == b[i] {
      assert LinesOf(a)[i] == LinesOf(b)[i];
      SameValue(a[i], b[i]);
    }
  }

  lemma SameNumber(m: nat, n: nat)
    requires Decimal(m) == Decimal(n)
    ensures m == n
  {
    NumberOfDecimal(m);
    NumberOfDecimal(n);
  }

  lemma PartsAreInjective(a: Fields, b: Fields)
    requires Parts(a) == Parts(b)
    ensures a == b
  {
    assert SiteParts(a) == Parts(a)[..7] == SiteParts(b);
    assert PartyParts(a) == Parts(a)[7..14] == PartyParts(b);
    assert ProofParts(a) == Parts(a)[14..] == ProofParts(b);
    SiteIsInjective(a, b);
    PartyIsInjective(a, b);
    ProofIsInjective(a, b);
  }

  lemma SiteIsInjective(a: Fields, b: Fields)
    requires SiteParts(a) == SiteParts(b)
    ensures a.hostname == b.hostname && a.origin == b.origin && a.chainId == b.chainId && a.controller == b.controller
    ensures a.releaseId == b.releaseId && a.requestId == b.requestId
  {
    var p, q := SiteParts(a), SiteParts(b);
    assert p[1] == q[1] && p[2] == q[2] && p[3] == q[3] && p[4] == q[4] && p[5] == q[5] && p[6] == q[6];
    SameNumber(a.chainId, b.chainId);
  }

  lemma PartyIsInjective(a: Fields, b: Fields)
    requires PartyParts(a) == PartyParts(b)
    ensures a.name == b.name && a.requester == b.requester && a.recipient == b.recipient && a.payer == b.payer
    ensures a.executor == b.executor && a.durationYears == b.durationYears && a.amount == b.amount
  {
    var p, q := PartyParts(a), PartyParts(b);
    assert p[0] == q[0] && p[1] == q[1] && p[2] == q[2] && p[3] == q[3] && p[4] == q[4] && p[5] == q[5] && p[6] == q[6];
    SameNumber(a.durationYears, b.durationYears);
    SameNumber(a.amount, b.amount);
  }

  lemma ProofIsInjective(a: Fields, b: Fields)
    requires ProofParts(a) == ProofParts(b)
    ensures a.resolverDataHash == b.resolverDataHash && a.referrer == b.referrer && a.fingerprint == b.fingerprint
    ensures a.nonce == b.nonce && a.issuedAt == b.issuedAt && a.expiresAt == b.expiresAt
  {
    var p, q := ProofParts(a), ProofParts(b);
    assert p[0] == q[0] && p[1] == q[1] && p[3] == q[3] && p[4] == q[4] && p[5] == q[5] && p[6] == q[6];
    SameNumber(a.issuedAt, b.issuedAt);
    SameNumber(a.expiresAt, b.expiresAt);
  }

  // A signed message stands for one set of terms. A newline in a field could break that: a request id that runs
  // on into the name line gives the message of other terms. Such terms are not issued, since no normalized name
  // holds a newline, and ReadableMessageIsInjective and MessageBindsTerms do without the condition.
  lemma MessageIsInjective(a: Fields, b: Fields)
    requires OneLineFields(a) && OneLineFields(b) && ChallengeMessage(a) == ChallengeMessage(b)
    ensures a == b
  {
    MessageLines(a);
    MessageLines(b);
    SameParts(Parts(a), Parts(b));
    PartsAreInjective(a, b);
  }

  // The parser refuses a message with a broken line, so a message it reads stands for one set of terms,
  // whatever the fields.
  lemma ReadableMessageIsInjective(a: Fields, b: Fields)
    requires ReadChallengeClock(ChallengeMessage(a)).Ok? && ChallengeMessage(a) == ChallengeMessage(b)
    ensures a == b
  {
    ClockRoundTrip(a);
    ClockRoundTrip(b);
    MessageIsInjective(a, b);
  }

  // ---- the fingerprint line ----

  lemma {:induction false} SplitAcross(s: string, t: string)
    ensures Split(s + [NEWLINE] + t) == Split(s) + Split(t)
  {
    var all := s + [NEWLINE] + t;
    if s == "" {
      assert all[1..] == t;
    } else {
      assert all[1..] == s[1..] + [NEWLINE] + t && all[0] == s[0];
      SplitAcross(s[1..], t);
    }
  }

  lemma {:induction false} JoinAcross(before: seq<string>, after: seq<string>)
    requires before != [] && after != []
    ensures Join(before + after) == Join(before) + [NEWLINE] + Join(after)
  {
    assert (before + after)[1..] == before[1..] + after;
    if |before| > 1 { JoinAcross(before[1..], after); }
  }

  // The last lines of a text are read back whatever comes before them.
  lemma LastLines(before: seq<string>, after: seq<string>)
    requires before != [] && after != [] && forall l <- after :: NoNewline(l)
    ensures |Split(Join(before + after))| >= |after|
    ensures var lines := Split(Join(before + after)); lines[|lines| - |after|..] == after
  {
    JoinAcross(before, after);
    SplitAcross(Join(before), Join(after));
    SplitOfJoin(after);
  }

  function ClosingParts(f: Fields): seq<Part> {
    ProofParts(f)[3..]
  }

  lemma ClosingText(f: Fields)
    ensures AllFixedTextFits(ClosingParts(f)) && |ClosingParts(f)| == 4
    ensures NoNewline(f.fingerprint) && NoNewline(f.nonce) ==>
            forall i | 0 <= i < 4 :: NoNewline(ClosingParts(f)[i].value)
  {
    ProofText(f);
    assert forall i | 0 <= i < 4 :: ClosingParts(f)[i] == ProofParts(f)[i + 3];
  }

  lemma PartsClose(parts: seq<Part>, closing: seq<Part>)
    requires |closing| < |parts| && parts[|parts| - |closing|..] == closing && closing != []
             && AllFixedTextFits(closing)
    requires forall i | 0 <= i < |closing| :: NoNewline(closing[i].value)
    ensures |Split(Join(LinesOf(parts)))| >= |closing|
    ensures var lines := Split(Join(LinesOf(parts))); lines[|lines| - |closing|..] == LinesOf(closing)
  {
    var n := |parts| - |closing|;
    assert LinesOf(parts) == LinesOf(parts[..n]) + LinesOf(closing);
    LinesOnOneLine(closing);
    LastLines(LinesOf(parts[..n]), LinesOf(closing));
  }

  lemma LastParts(f: Fields)
    requires NoNewline(f.fingerprint) && NoNewline(f.nonce)
    ensures |Split(ChallengeMessage(f))| >= 4
    ensures var lines := Split(ChallengeMessage(f)); lines[|lines| - 4..] == LinesOf(ClosingParts(f))
  {
    ClosingText(f);
    PartsClose(Parts(f), ClosingParts(f));
  }

  // What fingerprintForOrigin digests, besides values that the manifest fixes.
  function Digested(f: Fields): Fields {
    f.(hostname := "", fingerprint := "", nonce := "", issuedAt := 0, expiresAt := 0)
  }

  // The digest covers every term but the hostname, which the origin decides, itself, and the clock.
  lemma DigestCovers(a: Fields, b: Fields)
    ensures Digested(a) == Digested(b) <==>
            b == a.(hostname := b.hostname, fingerprint := b.fingerprint, nonce := b.nonce, issuedAt := b.issuedAt,
                    expiresAt := b.expiresAt)
  {
  }

  // The hostname is that of the origin, and the fingerprint is the digest of the terms.
  predicate IsPrepared(host: string -> string, digest: Fields -> string, f: Fields) {
    f.hostname == host(f.origin) && f.fingerprint == digest(Digested(f)) && NoNewline(f.fingerprint)
        && NoNewline(f.nonce)
  }

  ghost predicate Injective(digest: Fields -> string) {
    forall a, b :: digest(a) == digest(b) ==> a == b
  }

  // With an injective digest the message determines all terms, newlines or not: the fingerprint, the nonce and
  // both times stand on its last four lines.
  lemma MessageBindsTerms(host: string -> string, digest: Fields -> string, a: Fields, b: Fields)
    requires Injective(digest) && IsPrepared(host, digest, a) && IsPrepared(host, digest, b)
    requires ChallengeMessage(a) == ChallengeMessage(b)
    ensures a == b
  {
    LastParts(a);
    LastParts(b);
    var p, q := ClosingParts(a), ClosingParts(b);
    assert forall i | 0 <= i < 4 :: p[i].prefix == q[i].prefix && p[i].suffix == q[i].suffix;
    SameParts(p, q);
    assert p[0] == q[0] && p[1] == q[1] && p[2] == q[2] && p[3] == q[3];
    SameNumber(a.issuedAt, b.issuedAt);
    SameNumber(a.expiresAt, b.expiresAt);
    assert Digested(a) == Digested(b);
  }

  // ---- the times of the issued permit ----

  const CHALLENGE_TTL_SECONDS := 120
  const MINIMUM_REMAINING_SECONDS := 30
  const MAX_TTL_SECONDS := 295

  // readPermitTtlSeconds
  predicate TtlAccepted(ttl: int) {
    CHALLENGE_TTL_SECONDS + MINIMUM_REMAINING_SECONDS <= ttl <= MAX_TTL_SECONDS
  }

  // validateRegistrationChallengeEnvelope on a clock read from the message.
  predicate EnvelopeValid(clock: Clock, now: int) {
    clock.issuedAt <= now + SKEW_SECONDS && clock.expiresAt == clock.issuedAt + CHALLENGE_TTL_SECONDS
        && now < clock.expiresAt
  }

  datatype IssueError = ClockRejected(error: ClockError) | ChallengeExpired | IntentStale | TooClose

  function WithClock(f: Fields, clock: Clock): Fields {
    f.(nonce := clock.nonce, issuedAt := clock.issuedAt, expiresAt := clock.expiresAt)
  }

  // The times of issueRegistrationPermit: the message must be the print of the current terms with the
  // nonce and clock it carries.
  function IssuePermit(message: string, terms: Fields, permit: Permit, ttl: int, now: int): Result<Permit, IssueError> {
    match ReadChallengeClock(message)
    case Err(e) => Err(ClockRejected(e))
    case Ok(clock) =>
      if !EnvelopeValid(clock, now) then Err(ChallengeExpired)
      else if message != ChallengeMessage(WithClock(terms, clock)) then Err(IntentStale)
      else if clock.issuedAt + ttl - now < MINIMUM_REMAINING_SECONDS then Err(TooClose)
      else
        Ok(permit.(chainId := CHAIN_ID, issuedAt := clock.issuedAt, validAfter := clock.issuedAt - SKEW_SECONDS,
                   validUntil := clock.issuedAt + ttl))
  }

  // With an accepted TTL the "too close to expiry" branch is unreachable, and every permit meets the window
  // contract of the SDK at the second the envelope was checked, with more than 30 s left.
  lemma IssuedPermitMeetsWindow(message: string, terms: Fields, permit: Permit, ttl: int, now: int)
    requires TtlAccepted(ttl)
    ensures IssuePermit(message, terms, permit, ttl, now) != Err(TooClose)
    ensures var r := IssuePermit(message, terms, permit, ttl, now);
            r.Ok? ==> MeetsWindow(r.value, now) && r.value.validUntil - now > MINIMUM_REMAINING_SECONDS
  {
  }

  // Exactly when a permit is issued, and what it says. The message must be the print of the current terms; the
  // permit takes its times from the message, and every other field as it was prepared.
  lemma IssuedExactly(message: string, terms: Fields, permit: Permit, ttl: int, now: int)
    ensures var r := IssuePermit(message, terms, permit, ttl, now);
            match ReadChallengeClock(message)
            case Err(e) => r == Err(ClockRejected(e))
            case Ok(clock) =>
              && (r == Err(ChallengeExpired) <==>
                  now + 5 < clock.issuedAt || clock.expiresAt != clock.issuedAt + 120 || clock.expiresAt <= now)
              && (r.Ok? <==>
                  && clock.issuedAt - 5 <= now < clock.expiresAt == clock.issuedAt + 120
                  && message == ChallengeMessage(terms.(nonce := clock.nonce, issuedAt := clock.issuedAt,
                                                        expiresAt := clock.expiresAt))
                  && 30 <= clock.issuedAt + ttl - now)
              && (r.Ok? ==>
                    && r.value.chainId == 5042 && r.value.issuedAt == clock.issuedAt
                    && r.value.validAfter == clock.issuedAt - 5 && r.value.validUntil == clock.issuedAt + ttl
                    && r.value.controller == permit.controller && r.value.labelHash == permit.labelHash
                    && r.value.requester == permit.requester && r.value.executor == permit.executor
                    && r.value.amount == permit.amount && r.value.nonce == permit.nonce
                    && r.value.permitId == permit.permitId)
  {
  }

  // A clock that the parser can give.
  predicate IsReadable(clock: Clock) {
    IsNonce(clock.nonce) && TenDigitClock(clock.issuedAt) && TenDigitClock(clock.expiresAt)
  }

  // The TTLs for which that holds of every valid envelope are 149..295: the lower bound in force has one
  // second to spare and the upper bound none.
  lemma TtlBoundsAreTight(ttl: int)
    ensures TtlAccepted(ttl) <==> 150 <= ttl <= 295
    ensures (149 <= ttl <= MAX_TTL_SECONDS) <==>
            forall clock: Clock, now: int | IsReadable(clock) && EnvelopeValid(clock, now) ::
              && clock.issuedAt + ttl - now >= MINIMUM_REMAINING_SECONDS
              && clock.issuedAt + ttl - (clock.issuedAt - SKEW_SECONDS) <= MAX_WINDOW_SECONDS
  {
    var nonce := "0x" + seq(64, _ => '0');
    assert nonce[..2] == "0x";
    var clock := Clock(nonce, MIN_CLOCK, MIN_CLOCK + CHALLENGE_TTL_SECONDS);
    assert IsReadable(clock) && EnvelopeValid(clock, MIN_CLOCK + CHALLENGE_TTL_SECONDS - 1);
  }

  // What the wallet signed is what is issued: the terms of an issued permit are those of the message.
  lemma IssuedTermsWereSigned(signed: Fields, terms: Fields, permit: Permit, ttl: int, now: int)
    requires IssuePermit(ChallengeMessage(signed), terms, permit, ttl, now).Ok?
    ensures signed == terms.(nonce := signed.nonce, issuedAt := signed.issuedAt, expiresAt := signed.expiresAt)
    ensures IssuePermit(ChallengeMessage(signed), terms, permit, ttl, now).value.issuedAt == signed.issuedAt
  {
    ClockRoundTrip(signed);
    ReadableMessageIsInjective(signed, WithClock(terms, Clock(signed.nonce, signed.issuedAt, signed.expiresAt)));
  }
}
