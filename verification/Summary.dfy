/**
  The compaction summary: a deterministic digest of the messages folded, put after
  the previous summary, which is cut down to its key lines when the two together
  do not fit the character budget.

  A text is a sequence of UTF-16 units, so that lengths are the original's.
 */
module Summary {
  type CodeUnit = nat
  type Text = seq<CodeUnit>

  const NEWLINE: CodeUnit := 10
  const LINE_LIMIT := 195
  const DELTA_LIMIT := 1339
  const HEAD_LIMIT := 1860
  const LEAST_BUDGET := HEAD_LIMIT + DELTA_LIMIT + 2
  const COMPACTION_SUMMARY_BUDGET := 4000
  /** The first number that takes more than twenty digits. */
  const COUNT_LIMIT := 100_000_000_000_000_000_000

  /** An array has fewer elements than this, so that counts take at most ten digits. */
  const ARRAY_LIMIT := 0x1_0000_0000
  const ARRAY_DIGITS := 10

  datatype Role = User | Assistant

  datatype Message = Message(role: Role, content: Text)

  // ----- lines

  /** `parts.join("\n")`. */
  function Join(parts: seq<Text>): Text {
    if parts == [] then []
    else if |parts| == 1 then parts[0]
    else parts[0] + [NEWLINE] + Join(parts[1..])
  }

  /** `text.split("\n")`. */
  function Split(text: Text): (lines: seq<Text>)
    ensures lines != []
  {
    if text == [] then [[]]
    else if text[0] == NEWLINE then [[]] + Split(text[1..])
    else Prepend(text[0], Split(text[1..]))
  }

  function Prepend(unit: CodeUnit, lines: seq<Text>): (r: seq<Text>)
    requires lines != []
    ensures r != []
  {
    [[unit] + lines[0]] + lines[1..]
  }

  /** `slice(0, n)`, of a text or of a list. */
  function Take<T>(s: seq<T>, n: nat): (t: seq<T>)
    ensures t <= s && |t| == if |s| <= n then |s| else n
  {
    if |s| <= n then s else s[..n]
  }

  predicate EndsWith(text: Text, end: Text) {
    |end| <= |text| && text[|text| - |end|..] == end
  }

  predicate Within(parts: seq<Text>, n: nat) {
    forall i :: 0 <= i < |parts| ==> |parts[i]| <= n
  }

  ghost predicate LinesWithin(text: Text, n: nat) {
    forall i :: 0 <= i < |Split(text)| ==> |Split(text)[i]| <= n
  }

  lemma PrependAppend(unit: CodeUnit, lines: seq<Text>, more: seq<Text>)
    requires lines != []
    ensures Prepend(unit, lines + more) == Prepend(unit, lines) + more
    ensures [[]] + (lines + more) == [[]] + lines + more
  {
  }

  lemma {:induction false} SplitAtNewline(a: Text, b: Text)
    ensures Split(a + [NEWLINE] + b) == Split(a) + Split(b)
    decreases |a|
  {
    var text := a + [NEWLINE] + b;
    if a == [] {
      assert text[1..] == b;
    } else {
      SplitAtNewline(a[1..], b);
      assert text[0] == a[0] && text[1..] == a[1..] + [NEWLINE] + b;
      PrependAppend(a[0], Split(a[1..]), Split(b));
    }
  }

  function Paragraphs(a: Text, b: Text): Text {
    a + [NEWLINE, NEWLINE] + b
  }

  lemma ParagraphLines(a: Text, b: Text)
    ensures Split(Paragraphs(a, b)) == Split(a) + [[]] + Split(b)
  {
    SplitAtNewline(a, [NEWLINE] + b);
    SplitAtNewline([], b);
    assert Paragraphs(a, b) == a + [NEWLINE] + ([NEWLINE] + b);
    assert [] + [NEWLINE] + b == [NEWLINE] + b;
  }

  lemma TwoParagraphs(a: Text, b: Text, n: nat)
    requires LinesWithin(a, n) && LinesWithin(b, n)
    ensures Split(Paragraphs(a, b)) == Split(a) + [[]] + Split(b)
    ensures LinesWithin(Paragraphs(a, b), n) && EndsWith(Paragraphs(a, b), b)
  {
    ParagraphLines(a, b);
  }

  lemma {:induction false} LinesAreShorter(text: Text)
    ensures LinesWithin(text, |text|)
    decreases |text|
  {
    if text != [] {
      LinesAreShorter(text[1..]);
    }
  }

  lemma {:induction false} LinesHaveNoNewline(text: Text)
    ensures forall i :: 0 <= i < |Split(text)| ==> NEWLINE !in Split(text)[i]
    decreases |text|
  {
    if text != [] {
      LinesHaveNoNewline(text[1..]);
    }
  }

  lemma {:induction false} OneLine(text: Text)
    requires NEWLINE !in text
    ensures Split(text) == [text]
    decreases |text|
  {
    if text != [] {
      OneLine(text[1..]);
      assert [text[0]] + text[1..] == text;
    }
  }

  lemma {:induction false} JoinAppend(a: seq<Text>, b: seq<Text>)
    requires a != [] && b != []
    ensures Join(a + b) == Join(a) + [NEWLINE] + Join(b)
    decreases |a|
  {
    if |a| == 1 {
      assert (a + b)[1..] == b;
    } else {
      JoinAppend(a[1..], b);
      assert (a + b)[1..] == a[1..] + b;
    }
  }

  lemma JoinPrepend(unit: CodeUnit, lines: seq<Text>)
    requires lines != []
    ensures Join(Prepend(unit, lines)) == [unit] + Join(lines)
  {
    assert Prepend(unit, lines)[1..] == lines[1..];
  }

  lemma {:induction false} JoinSplit(text: Text)
    ensures Join(Split(text)) == text
    decreases |text|
  {
    if text != [] {
      JoinSplit(text[1..]);
      if text[0] == NEWLINE {
        JoinAppend([[]], Split(text[1..]));
      } else {
        JoinPrepend(text[0], Split(text[1..]));
      }
    }
  }

  lemma {:induction false} SplitJoin(lines: seq<Text>)
    requires lines != [] && forall i :: 0 <= i < |lines| ==> NEWLINE !in lines[i]
    ensures Split(Join(lines)) == lines
    decreases |lines|
  {
    OneLine(lines[0]);
    if |lines| > 1 {
      SplitJoin(lines[1..]);
      SplitAtNewline(lines[0], Join(lines[1..]));
    }
  }

  lemma {:induction false} JoinLinesWithin(parts: seq<Text>, n: nat)
    requires Within(parts, n)
    ensures LinesWithin(Join(parts), n)
    decreases |parts|
  {
    if parts != [] {
      LinesAreShorter(parts[0]);
      if |parts| > 1 {
        JoinLinesWithin(parts[1..], n);
        SplitAtNewline(parts[0], Join(parts[1..]));
      }
    }
  }

  /** The length of the parts, each with a separator. */
  function Size(parts: seq<Text>): nat {
    if parts == [] then 0 else |parts[0]| + 1 + Size(parts[1..])
  }

  lemma {:induction false} SizeOfEqual(parts: seq<Text>, n: nat)
    requires forall i :: 0 <= i < |parts| ==> |parts[i]| == n
    ensures Size(parts) == |parts| * (n + 1)
    decreases |parts|
  {
    if parts != [] {
      SizeOfEqual(parts[1..], n);
      assert |parts| * (n + 1) == (|parts| - 1) * (n + 1) + (n + 1);
    }
  }

  lemma {:induction false} JoinSize(parts: seq<Text>)
    requires parts != []
    ensures |Join(parts)| + 1 == Size(parts)
    decreases |parts|
  {
    if |parts| > 1 {
      JoinSize(parts[1..]);
    } else {
      assert parts[1..] == [];
    }
  }

  lemma BothWithin(a: seq<Text>, b: seq<Text>, n: nat)
    requires Within(a, n) && Within(b, n)
    ensures Within(a + b, n)
  {
  }

  lemma SizeOfOne(part: Text)
    ensures Size([part]) == |part| + 1
  {
    assert [part][1..] == [];
  }

  lemma SizeOfTwo(first: Text, second: Text)
    ensures Size([first, second]) == |first| + |second| + 2
  {
    SizeOfOne(second);
    assert [first, second][1..] == [second];
  }

  lemma {:induction false} SizeAppend(a: seq<Text>, b: seq<Text>)
    ensures Size(a + b) == Size(a) + Size(b)
    decreases |a|
  {
    if a == [] {
      assert a + b == b;
    } else {
      SizeAppend(a[1..], b);
      assert (a + b)[1..] == a[1..] + b;
    }
  }

  lemma {:induction false} SizeWithin(parts: seq<Text>, n: nat, count: nat)
    requires |parts| <= count && Within(parts, n)
    ensures Size(parts) <= count * (n + 1)
    decreases |parts|
  {
    if parts != [] {
      SizeWithin(parts[1..], n, count - 1);
      assert count * (n + 1) == (count - 1) * (n + 1) + (n + 1);
    }
  }

  // ----- numbers

  function Decimal(n: nat): Text {
    if n < 10 then [48 + n] else Decimal(n / 10) + [48 + n % 10]
  }

  predicate IsDigit(unit: CodeUnit) {
    48 <= unit <= 57
  }

  /** How many digits a text begins with. */
  function LeadingDigits(text: Text): (n: nat)
    ensures n <= |text|
  {
    if text != [] && IsDigit(text[0]) then 1 + LeadingDigits(text[1..]) else 0
  }

  /** The number that digits stand for. */
  function Number(digits: Text): int {
    if digits == [] then 0 else 10 * Number(digits[..|digits| - 1]) + digits[|digits| - 1] - 48
  }

  lemma {:induction false} DecimalReadsBack(n: nat)
    ensures Number(Decimal(n)) == n
    ensures forall i :: 0 <= i < |Decimal(n)| ==> IsDigit(Decimal(n)[i])
    decreases n
  {
    if n < 10 {
      assert [48 + n][..0] == [];
    } else {
      DecimalReadsBack(n / 10);
      assert Decimal(n)[..|Decimal(n)| - 1] == Decimal(n / 10);
    }
  }

  lemma {:induction false} DigitsEnd(digits: Text, rest: Text)
    requires forall i :: 0 <= i < |digits| ==> IsDigit(digits[i])
    requires rest != [] && !IsDigit(rest[0])
    ensures LeadingDigits(digits + rest) == |digits|
    decreases |digits|
  {
    if digits == [] {
      assert digits + rest == rest;
    } else {
      DigitsEnd(digits[1..], rest);
      assert (digits + rest)[1..] == digits[1..] + rest;
    }
  }

  lemma NumberInFront(n: nat, rest: Text)
    requires rest != [] && !IsDigit(rest[0])
    ensures LeadingDigits(Decimal(n) + rest) == |Decimal(n)|
    ensures Number((Decimal(n) + rest)[..|Decimal(n)|]) == n
  {
    DecimalReadsBack(n);
    DigitsEnd(Decimal(n), rest);
    assert (Decimal(n) + rest)[..|Decimal(n)|] == Decimal(n);
  }

  function Counts(first: nat, middle: Text, second: nat, end: Text): Text {
    Decimal(first) + (middle + (Decimal(second) + end))
  }

  /** The line begins with the first number; the second comes `gap` units after it. */
  predicate ReadsAs(line: Text, first: nat, gap: nat, second: nat) {
    var n := LeadingDigits(line);
    && Number(line[..n]) == first && n + gap <= |line|
    && Number(line[n + gap..][..LeadingDigits(line[n + gap..])]) == second
  }

  lemma CountsReadBack(first: nat, middle: Text, second: nat, end: Text)
    requires middle != [] && !IsDigit(middle[0]) && end != [] && !IsDigit(end[0])
    ensures ReadsAs(Counts(first, middle, second, end), first, |middle|, second)
  {
    NumberInFront(first, middle + (Decimal(second) + end));
    NumberInFront(second, end);
    AfterGap(Decimal(first), middle, Decimal(second) + end);
  }

  lemma AfterGap(a: Text, b: Text, c: Text)
    ensures (a + (b + c))[|a| + |b|..] == c
  {
  }

  function Power(k: nat): nat {
    if k == 0 then 1 else 10 * Power(k - 1)
  }

  lemma {:induction false} DigitsOf(n: nat, k: nat)
    requires 0 < k && n < Power(k)
    ensures |Decimal(n)| <= k
    decreases k
  {
    if n >= 10 {
      DigitsOf(n / 10, k - 1);
    }
  }

  lemma PowersOfTen()
    ensures Power(9) == 1_000_000_000 && ARRAY_LIMIT <= Power(ARRAY_DIGITS) && Power(20) == COUNT_LIMIT
  {
    assert Power(5) == 100_000;
    assert Power(9) == 10_000 * Power(5);
    assert Power(10) == 100_000 * Power(5);
    assert Power(15) == 100_000 * Power(10);
    assert Power(20) == 100_000 * Power(15);
  }

  lemma {:induction false} MoreDigits(n: nat, k: nat)
    requires n >= Power(k)
    ensures |Decimal(n)| > k
    decreases k
  {
    if k > 0 {
      assert n >= 10 by { PowerIsPositive(k - 1); }
      MoreDigits(n / 10, k - 1);
    }
  }

  lemma {:induction false} PowerIsPositive(k: nat)
    ensures Power(k) >= 1
  {
    if k > 0 {
      PowerIsPositive(k - 1);
    }
  }

  lemma TenDigits()
    ensures |Decimal(1_000_000_000)| == ARRAY_DIGITS
  {
    PowersOfTen();
    DigitsOf(1_000_000_000, ARRAY_DIGITS);
    MoreDigits(1_000_000_000, 9);
  }

  // ----- the messages of one digest

  function UserCount(messages: seq<Message>): (n: nat)
    ensures n <= |messages|
  {
    if messages == [] then 0 else (if messages[0].role == User then 1 else 0) + UserCount(messages[1..])
  }

  /** The position of `find((m) => m.role === "user")`; the length when there is none. */
  function FirstUser(messages: seq<Message>): (i: nat)
    ensures i <= |messages|
    ensures i < |messages| ==> messages[i].role == User
    ensures forall j :: 0 <= j < i ==> messages[j].role != User
  {
    if messages == [] || messages[0].role == User then 0 else 1 + FirstUser(messages[1..])
  }

  /** The position after that found from the end. */
  function AfterLastUser(messages: seq<Message>): (n: nat)
    ensures n <= |messages|
    ensures n > 0 ==> messages[n - 1].role == User
    ensures forall j :: n <= j < |messages| ==> messages[j].role != User
  {
    if messages == [] || messages[|messages| - 1].role == User then |messages|
    else AfterLastUser(messages[..|messages| - 1])
  }

  lemma {:induction false} UsersOfBoth(users: seq<Message>, others: seq<Message>)
    requires forall i :: 0 <= i < |users| ==> users[i].role == User
    requires forall i :: 0 <= i < |others| ==> others[i].role != User
    ensures UserCount(users + others) == |users|
    decreases |users|
  {
    if users == [] {
      assert users + others == others;
      NoUsers(others);
    } else {
      UsersOfBoth(users[1..], others);
      assert (users + others)[1..] == users[1..] + others;
    }
  }

  lemma {:induction false} UsersFromFirst(messages: seq<Message>)
    ensures UserCount(messages) == UserCount(messages[FirstUser(messages)..])
    decreases |messages|
  {
    if messages != [] && messages[0].role != User {
      UsersFromFirst(messages[1..]);
      assert messages[1..][FirstUser(messages[1..])..] == messages[FirstUser(messages)..];
    }
  }

  lemma {:induction false} NoUsers(messages: seq<Message>)
    ensures UserCount(messages) == 0 <==> forall j :: 0 <= j < |messages| ==> messages[j].role != User
    decreases |messages|
  {
    if messages != [] {
      NoUsers(messages[1..]);
      if UserCount(messages) == 0 {
        assert forall j :: 0 < j < |messages| ==> messages[j] == messages[1..][j - 1];
      }
    }
  }

  /** The first and the last user message differ exactly when there are two or more. */
  lemma {:induction false} FirstIsLastIff(messages: seq<Message>)
    ensures UserCount(messages) == 0 <==> FirstUser(messages) == |messages|
    ensures UserCount(messages) == 0 <==> AfterLastUser(messages) == 0
    ensures UserCount(messages) == 1 <==> FirstUser(messages) + 1 == AfterLastUser(messages)
  {
    NoUsers(messages);
    UsersFromFirst(messages);
    var i := FirstUser(messages);
    if i < |messages| {
      NoUsers(messages[i + 1..]);
      assert messages[i..][1..] == messages[i + 1..];
      assert forall j :: i < j < |messages| ==> messages[j] == messages[i + 1..][j - i - 1];
    }
  }

  // ----- positions

  /** The positions of what is true, in order. */
  function Positions(flags: seq<bool>): (positions: seq<nat>)
    ensures forall j :: 0 <= j < |positions| ==> positions[j] < |flags|
    ensures |positions| <= |flags|
  {
    if flags == [] then []
    else Positions(flags[..|flags| - 1]) + if flags[|flags| - 1] then [|flags| - 1] else []
  }

  /** All of them and no others, each once, in increasing order. */
  lemma {:induction false} PositionsAre(flags: seq<bool>)
    ensures forall j, k :: 0 <= j < k < |Positions(flags)| ==> Positions(flags)[j] < Positions(flags)[k]
    ensures forall i: nat :: i < |flags| ==> (flags[i] <==> i in Positions(flags))
    decreases |flags|
  {
    if flags != [] {
      PositionsAre(flags[..|flags| - 1]);
    }
  }

  function UserFlags(messages: seq<Message>): (flags: seq<bool>)
    ensures |flags| == |messages|
  {
    seq(|messages|, i requires 0 <= i < |messages| => messages[i].role == User)
  }

  lemma {:induction false} UserCountNext(messages: seq<Message>, m: Message)
    ensures UserCount(messages + [m]) == UserCount(messages) + if m.role == User then 1 else 0
    decreases |messages|
  {
    if messages == [] {
      assert ([] + [m])[1..] == messages;
    } else {
      UserCountNext(messages[1..], m);
      assert (messages + [m])[1..] == messages[1..] + [m];
    }
  }

  lemma {:induction false} UserCountIs(messages: seq<Message>)
    ensures UserCount(messages) == |Positions(UserFlags(messages))|
    decreases |messages|
  {
    if messages != [] {
      var init, last := messages[..|messages| - 1], messages[|messages| - 1];
      UserCountIs(init);
      UserCountNext(init, last);
      assert messages == init + [last];
      assert UserFlags(messages)[..|messages| - 1] == UserFlags(init);
    }
  }

  /** The first and the last user message found are those of the list. */
  lemma FoundAreFirstAndLast(messages: seq<Message>)
    ensures var users := Positions(UserFlags(messages));
      && FirstUser(messages) == (if users == [] then |messages| else users[0])
      && AfterLastUser(messages) == (if users == [] then 0 else users[|users| - 1] + 1)
  {
    var flags, users := UserFlags(messages), Positions(UserFlags(messages));
    PositionsAre(flags);
    var first, after := FirstUser(messages), AfterLastUser(messages);
    if users != [] {
      var low, high := users[0], users[|users| - 1];
      assert low in users && high in users;
      assert flags[low] && flags[high];
    }
    assert first < |messages| ==> flags[first];
    assert after > 0 ==> flags[after - 1];
  }

  // ----- the wording

  /** The fixed phrases, and the three regular expressions, which stay abstract. */
  datatype Phrases = Phrases(
    header: Text, turnsMark: Text, ofCeo: Text, ofCompany: Text,
    firstTopic: Text, lastTopic: Text, factsHeading: Text, keyFactsHeading: Text, bullet: Text,
    isRule: Text -> bool, collapse: Text -> Text, isDecision: Text -> bool)
  {
    ghost predicate Valid() {
      && |header| <= 40 && |turnsMark| <= 18 && |ofCeo| <= 11 && |ofCompany| <= 15
      && |firstTopic| <= 21 && |lastTopic| <= 35 && |factsHeading| <= 19 && |keyFactsHeading| <= 13 && |bullet| <= 2
      && NEWLINE !in header && NEWLINE !in keyFactsHeading
      && ofCeo != [] && !IsDigit(ofCeo[0]) && ofCompany != [] && !IsDigit(ofCompany[0])
    }

    // ----- `summarizeOldMessages`

    function Facts(messages: seq<Message>): (facts: seq<Text>)
      ensures Within(facts, 160)
    {
      if messages == [] then [] else Facts(messages[..|messages| - 1]) + FactOf(messages[|messages| - 1].content)
    }

    function FactOf(content: Text): (facts: seq<Text>)
      ensures Within(facts, 160)
    {
      if isRule(content) && collapse(content) != [] then [Take(collapse(content), 160)] else []
    }

    function TurnsLine(messages: seq<Message>): Text {
      turnsMark + [32] + Counts(UserCount(messages), ofCeo, |messages| - UserCount(messages), ofCompany)
    }

    function Topics(messages: seq<Message>): seq<Text> {
      TopicsAt(messages, FirstUser(messages), AfterLastUser(messages))
    }

    /** The topics, from the position of the first user message and the one after the last. */
    function TopicsAt(messages: seq<Message>, first: nat, after: nat): seq<Text>
      requires after <= |messages|
    {
      (if first < |messages| then [firstTopic + Take(messages[first].content, 160)] else []) +
      (if after > 0 && after - 1 != first then [lastTopic + Take(messages[after - 1].content, 160)] else [])
    }

    function FactLines(facts: seq<Text>): seq<Text> {
      if facts == [] then [] else [factsHeading] + seq(|Take(facts, 5)|, i requires 0 <= i < |Take(facts, 5)| => bullet + facts[i])
    }

    function DigestParts(messages: seq<Message>): (parts: seq<Text>)
      ensures parts != []
    {
      [header, TurnsLine(messages)] + Topics(messages) + FactLines(Facts(messages))
    }

    function Digest(messages: seq<Message>): Text {
      if messages == [] then [] else Join(DigestParts(messages))
    }

    // ----- `compressSummaryToBudget`

    function TotalTurns(lines: seq<Text>): (line: Text)
      ensures line == [] || line in lines
    {
      if lines == [] then []
      else if turnsMark <= lines[|lines| - 1] then lines[|lines| - 1]
      else TotalTurns(lines[..|lines| - 1])
    }

    predicate IsKey(line: Text) {
      !(turnsMark <= line) && (bullet <= line || isDecision(line))
    }

    function KeyFacts(lines: seq<Text>): (facts: seq<Text>)
      ensures Within(facts, 160)
    {
      if lines == [] then []
      else
        KeyFacts(lines[..|lines| - 1]) + if IsKey(lines[|lines| - 1]) then [Take(lines[|lines| - 1], 160)] else []
    }

    /** What is kept of the previous summary when the budget is exceeded. */
    function Head(lines: seq<Text>): (parts: seq<Text>)
      ensures parts != []
    {
      var turns, facts := TotalTurns(lines), KeyFacts(lines);
      [header] + (if turns == [] then [] else [turns]) +
      (if facts == [] then [] else [keyFactsHeading] + Take(facts, 10))
    }

    function Compress(oldSummary: Text, newDelta: Text, budget: nat): Text {
      var head := Head(Split(oldSummary));
      var remaining := budget - |Join(head)| - 2;
      Take(Join(if remaining > 100 then head + [Take(newDelta, remaining)] else head), budget)
    }

    // ----- `canonicalSummary`

    /** An absent previous summary is the empty one: both are falsy. */
    function Canonical(oldSummary: Text, newMessages: seq<Message>, budget: nat): Text {
      if newMessages == [] then oldSummary else Combine(oldSummary, Digest(newMessages), budget)
    }

    function Combine(oldSummary: Text, delta: Text, budget: nat): Text {
      if oldSummary == [] then delta
      else if |Paragraphs(oldSummary, delta)| <= budget then Paragraphs(oldSummary, delta)
      else Compress(oldSummary, delta, budget)
    }

    /** The summary after folding one batch after another, starting from none. */
    function Folded(batches: seq<seq<Message>>, budget: nat): Text {
      if batches == [] then []
      else Canonical(Folded(batches[..|batches| - 1], budget), batches[|batches| - 1], budget)
    }

    // ----- what one digest says

    /** Which messages state a rule, and are not blank. */
    function RuleFlags(messages: seq<Message>): (flags: seq<bool>)
      ensures |flags| == |messages|
    {
      seq(|messages|, i requires 0 <= i < |messages| => isRule(messages[i].content) && collapse(messages[i].content) != [])
    }

    lemma {:induction false} FactsAre(messages: seq<Message>)
      ensures var rules := Positions(RuleFlags(messages));
        && |Facts(messages)| == |rules|
        && forall j :: 0 <= j < |rules| ==> Facts(messages)[j] == Take(collapse(messages[rules[j]].content), 160)
      decreases |messages|
    {
      if messages != [] {
        FactsAre(messages[..|messages| - 1]);
        assert RuleFlags(messages)[..|messages| - 1] == RuleFlags(messages[..|messages| - 1]);
      }
    }

    /** The topics: the first user message, and the last when it is another one. */
    function TopicsOf(messages: seq<Message>, users: seq<nat>): seq<Text>
      requires forall j :: 0 <= j < |users| ==> users[j] < |messages|
    {
      (if users == [] then [] else [firstTopic + Take(messages[users[0]].content, 160)]) +
      (if |users| < 2 then [] else [lastTopic + Take(messages[users[|users| - 1]].content, 160)])
    }

    /** A bullet before each of the first five rules. */
    function QuotesOf(messages: seq<Message>, rules: seq<nat>): seq<Text>
      requires forall j :: 0 <= j < |rules| ==> rules[j] < |messages|
    {
      if rules == [] then []
      else [factsHeading] + seq(if |rules| < 5 then |rules| else 5, j requires 0 <= j < |rules| =>
                                  bullet + Take(collapse(messages[rules[j]].content), 160))
    }

    lemma TopicsAreOf(messages: seq<Message>)
      ensures Topics(messages) == TopicsOf(messages, Positions(UserFlags(messages)))
    {
      FoundAreFirstAndLast(messages);
      PositionsAre(UserFlags(messages));
    }

    lemma QuotesAreOf(messages: seq<Message>)
      ensures FactLines(Facts(messages)) == QuotesOf(messages, Positions(RuleFlags(messages)))
    {
      FactsAre(messages);
    }

    /** The lines of a digest, told by the positions of the user messages and of those that state a rule. */
    function SaidOf(messages: seq<Message>, users: seq<nat>, rules: seq<nat>): seq<Text>
      requires |users| <= |messages|
      requires forall j :: 0 <= j < |users| ==> users[j] < |messages|
      requires forall j :: 0 <= j < |rules| ==> rules[j] < |messages|
    {
      [header, turnsMark + [32] + Counts(|users|, ofCeo, |messages| - |users|, ofCompany)]
      + TopicsOf(messages, users) + QuotesOf(messages, rules)
    }

    lemma PartsSay(messages: seq<Message>)
      ensures DigestParts(messages) ==
              SaidOf(messages, Positions(UserFlags(messages)), Positions(RuleFlags(messages)))
    {
      UserCountIs(messages);
      TopicsAreOf(messages);
      QuotesAreOf(messages);
    }

    /**
      All that a digest says: the counts of user messages and of the others, the first and the
      last topic, and the first five rules in order.  A message that states no rule adds no line.
     */
    lemma DigestSays(messages: seq<Message>)
      ensures Digest(messages) ==
              if messages == [] then []
              else Join(SaidOf(messages, Positions(UserFlags(messages)), Positions(RuleFlags(messages))))
    {
      PartsSay(messages);
    }

    /** Both numbers can be read back from the line: the messages of the CEO, then all the others. */
    lemma TurnsLineTellsTheCounts(messages: seq<Message>)
      requires Valid()
      ensures |turnsMark| + 1 <= |TurnsLine(messages)|
      ensures ReadsAs(TurnsLine(messages)[|turnsMark| + 1..], UserCount(messages), |ofCeo|, |messages| - UserCount(messages))
    {
      CountsReadBack(UserCount(messages), ofCeo, |messages| - UserCount(messages), ofCompany);
      assert TurnsLine(messages)[|turnsMark| + 1..] ==
             Counts(UserCount(messages), ofCeo, |messages| - UserCount(messages), ofCompany);
    }

    /** One topic line for a single user message, two for more, none for none. */
    lemma {:induction false} TopicPerUserUpToTwo(messages: seq<Message>)
      ensures |Topics(messages)| == if UserCount(messages) <= 2 then UserCount(messages) else 2
    {
      FirstIsLastIff(messages);
    }

    lemma {:induction false} FactsOfPrefix(messages: seq<Message>, i: nat)
      requires i <= |messages|
      ensures Facts(messages[..i]) <= Facts(messages)
      decreases |messages|
    {
      if i < |messages| {
        FactsOfPrefix(messages[..|messages| - 1], i);
        assert messages[..|messages| - 1][..i] == messages[..i];
      } else {
        assert messages[..i] == messages;
      }
    }

    /** A message that states a rule is quoted exactly when fewer than five rules were stated before it. */
    lemma RuleIsQuotedIff(messages: seq<Message>, i: nat)
      requires i < |messages| && isRule(messages[i].content) && collapse(messages[i].content) != []
      ensures var before, facts := |Facts(messages[..i])|, Facts(messages);
        && before < |facts| && facts[before] == Take(collapse(messages[i].content), 160)
        && (before < 5 <==> before + 1 < |FactLines(facts)|)
        && (before < 5 ==> FactLines(facts)[before + 1] == bullet + facts[before])
    {
      FactsOfPrefix(messages, i + 1);
      assert messages[..i + 1][..i] == messages[..i];
    }

    /** The length of a digest with both counts of so many digits, both topics and five facts, none of them short. */
    function LongestDigest(digits: nat): nat {
      |header| + 1 + (|turnsMark| + |ofCeo| + |ofCompany| + 1 + 2 * digits) + 1 + (|firstTopic| + 160) + 1
      + (|lastTopic| + 160) + 1 + |factsHeading| + 5 * (|bullet| + 161)
    }

    /** Whatever the length of the list, up to counts of twenty digits. */
    lemma {:induction false} DigestIsBounded(messages: seq<Message>)
      requires Valid() && |messages| < COUNT_LIMIT
      ensures |Digest(messages)| <= LongestDigest(20) <= DELTA_LIMIT && LinesWithin(Digest(messages), LINE_LIMIT)
    {
      PowersOfTen();
      PartsAreWithin(messages);
      NoDigestIsLonger(messages, 20);
      JoinLinesWithin(DigestParts(messages), LINE_LIMIT);
    }

    lemma {:induction false} NoDigestIsLonger(messages: seq<Message>, digits: nat)
      requires digits > 0 && |messages| < Power(digits)
      ensures |Digest(messages)| <= LongestDigest(digits)
    {
      PartsSize(messages, digits);
      JoinSize(DigestParts(messages));
    }

    lemma PartsAreWithin(messages: seq<Message>)
      requires Valid() && |messages| < COUNT_LIMIT
      ensures Within(DigestParts(messages), LINE_LIMIT)
    {
      PowersOfTen();
      TurnsLineWithin(messages, 20);
      TopicsAreWithin(messages);
      FactLinesAreWithin(Facts(messages));
      BothWithin([header, TurnsLine(messages)], Topics(messages), LINE_LIMIT);
      BothWithin([header, TurnsLine(messages)] + Topics(messages), FactLines(Facts(messages)), LINE_LIMIT);
    }

    lemma TopicsAreWithin(messages: seq<Message>)
      requires Valid()
      ensures Within(Topics(messages), LINE_LIMIT)
    {
    }

    lemma FactLinesAreWithin(facts: seq<Text>)
      requires Valid() && Within(facts, 160)
      ensures Within(FactLines(facts), 162)
    {
    }

    lemma DigestSize(messages: seq<Message>)
      ensures Size(DigestParts(messages)) ==
              |header| + 1 + |TurnsLine(messages)| + 1 + Size(Topics(messages)) + Size(FactLines(Facts(messages)))
    {
      var opening, topics, facts := [header, TurnsLine(messages)], Topics(messages), FactLines(Facts(messages));
      SizeOfTwo(header, TurnsLine(messages));
      SizeAppend(opening + topics, facts);
      SizeAppend(opening, topics);
    }

    lemma PartsSize(messages: seq<Message>, digits: nat)
      requires digits > 0 && |messages| < Power(digits)
      ensures Size(DigestParts(messages)) <= LongestDigest(digits) + 1
    {
      DigestSize(messages);
      TurnsLineWithin(messages, digits);
      TopicsSize(messages);
      FactLinesSize(Facts(messages));
    }

    lemma TurnsLineWithin(messages: seq<Message>, digits: nat)
      requires digits > 0 && |messages| < Power(digits)
      ensures |TurnsLine(messages)| <= |turnsMark| + |ofCeo| + |ofCompany| + 1 + 2 * digits
    {
      DigitsOf(UserCount(messages), digits);
      DigitsOf(|messages| - UserCount(messages), digits);
    }

    lemma TopicsSize(messages: seq<Message>)
      ensures Size(Topics(messages)) <= |firstTopic| + 161 + |lastTopic| + 161
    {
      var topics := Topics(messages);
      if |topics| == 2 {
        SizeOfTwo(topics[0], topics[1]);
        assert topics == [topics[0], topics[1]];
      } else if |topics| == 1 {
        SizeOfOne(topics[0]);
        assert topics == [topics[0]];
      }
    }

    lemma FactLinesSize(facts: seq<Text>)
      requires Within(facts, 160)
      ensures Size(FactLines(facts)) <= |factsHeading| + 1 + 5 * (|bullet| + 161)
    {
      if facts != [] {
        SizeWithin(FactLines(facts)[1..], |bullet| + 160, 5);
      }
    }

    // ----- the longest digest

    /** A message that states a rule in at least 160 units, however its white space is collapsed. */
    predicate LongRule(content: Text) {
      isRule(content) && |content| >= 160 && |collapse(content)| >= 160
    }

    function Repeated(role: Role, content: Text, n: nat): (messages: seq<Message>)
      ensures |messages| == n && forall i :: 0 <= i < n ==> messages[i] == Message(role, content)
    {
      seq(n, _ => Message(role, content))
    }

    lemma {:induction false} FactsOfRules(content: Text, messages: seq<Message>)
      requires LongRule(content) && forall i :: 0 <= i < |messages| ==> messages[i].content == content
      ensures |Facts(messages)| == |messages|
      ensures forall i :: 0 <= i < |messages| ==> |Facts(messages)[i]| == 160
      decreases |messages|
    {
      if messages != [] {
        FactsOfRules(content, messages[..|messages| - 1]);
      }
    }

    lemma FiveFactLines(facts: seq<Text>)
      requires |facts| >= 5 && forall i :: 0 <= i < |facts| ==> |facts[i]| == 160
      ensures Size(FactLines(facts)) == |factsHeading| + 1 + 5 * (|bullet| + 161)
    {
      var lines := FactLines(facts);
      assert |lines[1..]| == 5;
      SizeOfEqual(lines[1..], |bullet| + 160);
    }

    lemma LongTopicsAt(content: Text, messages: seq<Message>, first: nat, after: nat)
      requires |content| >= 160 && first < |messages| && 0 < after <= |messages| && after - 1 != first
      requires messages[first].content == content && messages[after - 1].content == content
      ensures Size(TopicsAt(messages, first, after)) == |firstTopic| + 161 + |lastTopic| + 161
    {
      SizeOfTwo(firstTopic + Take(content, 160), lastTopic + Take(content, 160));
    }

    lemma LongTopics(content: Text, messages: seq<Message>)
      requires |content| >= 160 && UserCount(messages) >= 2
      requires forall i :: 0 <= i < |messages| ==> messages[i].content == content
      ensures Size(Topics(messages)) == |firstTopic| + 161 + |lastTopic| + 161
    {
      FirstIsLastIff(messages);
      LongTopicsAt(content, messages, FirstUser(messages), AfterLastUser(messages));
    }

    /** A thousand million messages from either side, all the same long rule: a list that fits in an array. */
    lemma {:induction false} LongestIsReached(content: Text) returns (messages: seq<Message>)
      requires LongRule(content)
      ensures 0 < |messages| < ARRAY_LIMIT && |Digest(messages)| == LongestDigest(ARRAY_DIGITS)
    {
      var n := 1_000_000_000;
      messages := Repeated(User, content, n) + Repeated(Assistant, content, n);
      UsersOfBoth(Repeated(User, content, n), Repeated(Assistant, content, n));
      TenDigits();
      LongTopics(content, messages);
      FactsOfRules(content, messages);
      FiveFactLines(Facts(messages));
      DigestSize(messages);
      JoinSize(DigestParts(messages));
    }

    /**
      Given the previous summary and the budget, the results for all arrays of messages are
      within the budget exactly when there is a previous summary or the budget has room for
      the longest digest of an array.
     */
    lemma BudgetIsKeptIff(oldSummary: Text, budget: nat, content: Text)
      requires LongRule(content)
      ensures (forall messages :: 0 < |messages| < ARRAY_LIMIT ==> |Canonical(oldSummary, messages, budget)| <= budget)
              <==> oldSummary != [] || budget >= LongestDigest(ARRAY_DIGITS)
    {
      if oldSummary != [] || budget >= LongestDigest(ARRAY_DIGITS) {
        PowersOfTen();
        forall messages | 0 < |messages| < ARRAY_LIMIT ensures |Canonical(oldSummary, messages, budget)| <= budget {
          NoDigestIsLonger(messages, ARRAY_DIGITS);
          WithinBudgetIff(oldSummary, messages, budget);
        }
      } else {
        var messages := LongestIsReached(content);
        WithinBudgetIff(oldSummary, messages, budget);
        assert |Canonical(oldSummary, messages, budget)| > budget;
      }
    }

    // ----- what is kept of the previous summary

    lemma {:induction false} KeyFactsAreLines(lines: seq<Text>)
      requires forall i :: 0 <= i < |lines| ==> NEWLINE !in lines[i]
      ensures forall i :: 0 <= i < |KeyFacts(lines)| ==> NEWLINE !in KeyFacts(lines)[i]
      decreases |lines|
    {
      if lines != [] {
        KeyFactsAreLines(lines[..|lines| - 1]);
        assert NEWLINE !in Take(lines[|lines| - 1], 160);
      }
    }

    lemma HeadIsBounded(oldSummary: Text)
      requires Valid() && LinesWithin(oldSummary, LINE_LIMIT)
      ensures |Join(Head(Split(oldSummary)))| <= HEAD_LIMIT
      ensures LinesWithin(Join(Head(Split(oldSummary))), LINE_LIMIT)
    {
      var lines := Split(oldSummary);
      var turns, facts := TotalTurns(lines), KeyFacts(lines);
      var middle := if turns == [] then [] else [turns];
      var last := if facts == [] then [] else [keyFactsHeading] + Take(facts, 10);
      SizeOfOne(header);
      SizeOfOne(turns);
      SizeOfOne(keyFactsHeading);
      SizeWithin(Take(facts, 10), 160, 10);
      SizeAppend([keyFactsHeading], Take(facts, 10));
      SizeAppend([header], middle);
      SizeAppend([header] + middle, last);
      JoinSize(Head(lines));
      JoinLinesWithin(Head(lines), LINE_LIMIT);
    }

    /** Which lines begin with the mark of the turns. */
    function TurnFlags(lines: seq<Text>): (flags: seq<bool>)
      ensures |flags| == |lines|
    {
      seq(|lines|, i requires 0 <= i < |lines| => turnsMark <= lines[i])
    }

    /** Which of the others begin with a bullet or name a decision. */
    function KeyFlags(lines: seq<Text>): (flags: seq<bool>)
      ensures |flags| == |lines|
    {
      seq(|lines|, i requires 0 <= i < |lines| => !(turnsMark <= lines[i]) && (bullet <= lines[i] || isDecision(lines[i])))
    }

    lemma {:induction false} TurnsAre(lines: seq<Text>)
      ensures var turns := Positions(TurnFlags(lines));
        TotalTurns(lines) == if turns == [] then [] else lines[turns[|turns| - 1]]
      decreases |lines|
    {
      if lines != [] {
        TurnsAre(lines[..|lines| - 1]);
        assert TurnFlags(lines)[..|lines| - 1] == TurnFlags(lines[..|lines| - 1]);
      }
    }

    lemma {:induction false} KeysAre(lines: seq<Text>)
      ensures var keys := Positions(KeyFlags(lines));
        && |KeyFacts(lines)| == |keys|
        && forall j :: 0 <= j < |keys| ==> KeyFacts(lines)[j] == Take(lines[keys[j]], 160)
      decreases |lines|
    {
      if lines != [] {
        KeysAre(lines[..|lines| - 1]);
        assert KeyFlags(lines)[..|lines| - 1] == KeyFlags(lines[..|lines| - 1]);
      }
    }

    /** The header, the last line of turns, and the first ten key lines, each cut to 160 units. */
    function KeptOf(lines: seq<Text>, turns: seq<nat>, keys: seq<nat>): seq<Text>
      requires forall j :: 0 <= j < |turns| ==> turns[j] < |lines|
      requires forall j :: 0 <= j < |keys| ==> keys[j] < |lines|
    {
      [header]
      + (if turns == [] || lines[turns[|turns| - 1]] == [] then [] else [lines[turns[|turns| - 1]]])
      + (if keys == [] then []
         else [keyFactsHeading] + seq(if |keys| < 10 then |keys| else 10, j requires 0 <= j < |keys| => Take(lines[keys[j]], 160)))
    }

    lemma HeadSays(lines: seq<Text>)
      ensures Head(lines) == KeptOf(lines, Positions(TurnFlags(lines)), Positions(KeyFlags(lines)))
    {
      TurnsAre(lines);
      KeysAre(lines);
      var keys := Positions(KeyFlags(lines));
      if keys != [] {
        assert Take(KeyFacts(lines), 10) ==
               seq(if |keys| < 10 then |keys| else 10, j requires 0 <= j < |keys| => Take(lines[keys[j]], 160));
      }
    }

    /** What is kept of a summary that does not fit. */
    function KeptText(summary: Text): Text {
      var lines := Split(summary);
      Join(KeptOf(lines, Positions(TurnFlags(lines)), Positions(KeyFlags(lines))))
    }

    lemma CompressSays(oldSummary: Text, digest: Text, budget: nat)
      ensures var head := KeptText(oldSummary);
        var room := budget - |head| - 2;
        Compress(oldSummary, digest, budget) ==
        if room > 100 then head + [NEWLINE] + Take(digest, room) else Take(head, budget)
    {
      HeadSays(Split(oldSummary));
      var parts := Head(Split(oldSummary));
      var room := budget - |Join(parts)| - 2;
      if room > 100 {
        JoinAppend(parts, [Take(digest, room)]);
      }
    }

    /**
      What a folding step stores, for any summaries and any budget: nothing new, the digest
      alone, both as two paragraphs exactly when they fit, or else what is kept of the old one
      and as much of the digest as there is room for, if that is more than a hundred units.
     */
    lemma CanonicalSays(oldSummary: Text, newMessages: seq<Message>, budget: nat)
      ensures var digest, head := Digest(newMessages), KeptText(oldSummary);
        var room := budget - |head| - 2;
        Canonical(oldSummary, newMessages, budget) ==
        if newMessages == [] then oldSummary
        else if oldSummary == [] then digest
        else if |oldSummary| + 2 + |digest| <= budget then oldSummary + [NEWLINE, NEWLINE] + digest
        else if room > 100 then head + [NEWLINE] + Take(digest, room)
        else Take(head, budget)
    {
      CompressSays(oldSummary, Digest(newMessages), budget);
    }

    /** The compressed summary is the head of the old one and then the whole digest exactly when there is room. */
    lemma DigestIsWholeIff(oldSummary: Text, newDelta: Text, budget: nat)
      ensures var head := Join(Head(Split(oldSummary)));
        var room := budget - |head| - 2;
        Compress(oldSummary, newDelta, budget) == head + [NEWLINE] + newDelta <==> room > 100 && |newDelta| <= room
    {
      var parts := Head(Split(oldSummary));
      var room := budget - |Join(parts)| - 2;
      if room > 100 {
        JoinAppend(parts, [Take(newDelta, room)]);
      }
    }

    /** Only a first digest is not compared with the budget (see `BudgetIsKeptIff`). */
    lemma WithinBudgetIff(oldSummary: Text, newMessages: seq<Message>, budget: nat)
      requires newMessages != []
      ensures |Canonical(oldSummary, newMessages, budget)| <= budget <==>
              oldSummary != [] || |Digest(newMessages)| <= budget
    {
    }

    /** Bounded, ending with the whole digest, after all lines of the old summary or exactly its head. */
    ghost predicate Keeps(oldSummary: Text, digest: Text, budget: nat, summary: Text) {
      && |summary| <= budget && LinesWithin(summary, LINE_LIMIT) && EndsWith(summary, digest)
      && (oldSummary == [] ==> summary == digest)
      && (oldSummary != [] ==>
            || Split(summary) == Split(oldSummary) + [[]] + Split(digest)
            || Split(summary) == Head(Split(oldSummary)) + Split(digest))
    }

    lemma CombineKeepsTheDigest(oldSummary: Text, digest: Text, budget: nat)
      requires Valid() && budget >= LEAST_BUDGET && LinesWithin(oldSummary, LINE_LIMIT)
      requires |digest| <= DELTA_LIMIT && LinesWithin(digest, LINE_LIMIT)
      ensures Keeps(oldSummary, digest, budget, Combine(oldSummary, digest, budget))
    {
      if oldSummary != [] {
        TwoParagraphs(oldSummary, digest, LINE_LIMIT);
        CompressedKeepsTheDigest(oldSummary, digest, budget);
      }
    }

    /**
      One folding step: nothing of the new digest is lost.  Of the previous summary
      every line is kept, or else its last line of turns and its first ten key lines.
     */
    lemma {:induction false} StepKeepsTheDigest(oldSummary: Text, newMessages: seq<Message>, budget: nat)
      requires Valid() && budget >= LEAST_BUDGET && LinesWithin(oldSummary, LINE_LIMIT)
      requires 0 < |newMessages| < COUNT_LIMIT
      ensures Keeps(oldSummary, Digest(newMessages), budget, Canonical(oldSummary, newMessages, budget))
    {
      DigestIsBounded(newMessages);
      CombineKeepsTheDigest(oldSummary, Digest(newMessages), budget);
    }

    lemma CompressedKeepsTheDigest(oldSummary: Text, digest: Text, budget: nat)
      requires Valid() && budget >= LEAST_BUDGET && LinesWithin(oldSummary, LINE_LIMIT)
      requires |digest| <= DELTA_LIMIT && LinesWithin(digest, LINE_LIMIT)
      ensures var summary := Compress(oldSummary, digest, budget);
        && |summary| <= budget && LinesWithin(summary, LINE_LIMIT) && EndsWith(summary, digest)
        && Split(summary) == Head(Split(oldSummary)) + Split(digest)
    {
      HeadIsBounded(oldSummary);
      DigestIsWholeIff(oldSummary, digest, budget);
      HeadIsLines(oldSummary);
      SplitAtNewline(Join(Head(Split(oldSummary))), digest);
    }

    /** While there are at most ten key lines, folding loses none of them, but for what is beyond 160 units. */
    lemma KeyLinesSurvive(oldSummary: Text, newMessages: seq<Message>, budget: nat, i: nat)
      requires Valid() && budget >= LEAST_BUDGET && oldSummary != [] && LinesWithin(oldSummary, LINE_LIMIT)
      requires 0 < |newMessages| < COUNT_LIMIT
      requires i < |Split(oldSummary)| && IsKey(Split(oldSummary)[i]) && |KeyFacts(Split(oldSummary))| <= 10
      ensures var line := Split(oldSummary)[i];
        exists kept :: kept in Split(Canonical(oldSummary, newMessages, budget)) && (kept == line || kept == Take(line, 160))
    {
      var line, facts := Split(oldSummary)[i], KeyFacts(Split(oldSummary));
      StepKeepsTheDigest(oldSummary, newMessages, budget);
      KeyLineHasItsPlace(Split(oldSummary), i);
      assert Take(facts, 10) == facts;
      assert Take(line, 160) in Head(Split(oldSummary));
      assert line in Split(Canonical(oldSummary, newMessages, budget))
          || Take(line, 160) in Split(Canonical(oldSummary, newMessages, budget));
    }

    lemma {:induction false} KeyFactsOfPrefix(lines: seq<Text>, i: nat)
      requires i <= |lines|
      ensures KeyFacts(lines[..i]) <= KeyFacts(lines)
      decreases |lines|
    {
      if i < |lines| {
        KeyFactsOfPrefix(lines[..|lines| - 1], i);
        assert lines[..|lines| - 1][..i] == lines[..i];
      } else {
        assert lines[..i] == lines;
      }
    }

    /** A key line is the fact that comes after those of the lines before it. */
    lemma KeyLineHasItsPlace(lines: seq<Text>, i: nat)
      requires i < |lines| && IsKey(lines[i])
      ensures var place := |KeyFacts(lines[..i])|;
        place < |KeyFacts(lines)| && KeyFacts(lines)[place] == Take(lines[i], 160)
    {
      KeyFactsOfPrefix(lines, i + 1);
      assert lines[..i + 1][..i] == lines[..i];
    }

    /** What a summary holds before its last digest. */
    function KeptLines(summary: Text, digest: Text): seq<Text> {
      var lines, more := Split(summary), Split(digest);
      if |more| <= |lines| then lines[..|lines| - |more|] else []
    }

    /**
      When summary and digest do not fit together, a key line is among the kept lines exactly
      when it is, cut to 160 units, among the first ten key facts (or spells one of the two
      headings).  So a line with ten key lines before it goes, and the newest facts go first.
     */
    lemma KeyLineSurvivesIff(oldSummary: Text, digest: Text, budget: nat, i: nat)
      requires Valid() && budget >= LEAST_BUDGET && oldSummary != [] && LinesWithin(oldSummary, LINE_LIMIT)
      requires |digest| <= DELTA_LIMIT && LinesWithin(digest, LINE_LIMIT) && |Paragraphs(oldSummary, digest)| > budget
      requires i < |Split(oldSummary)| && IsKey(Split(oldSummary)[i])
      ensures var lines, fact := Split(oldSummary), Take(Split(oldSummary)[i], 160);
        && (fact in KeptLines(Combine(oldSummary, digest, budget), digest) <==>
              fact in Take(KeyFacts(lines), 10) || fact == header || fact == keyFactsHeading)
        && (|KeyFacts(lines[..i])| < 10 ==> fact in Take(KeyFacts(lines), 10))
    {
      var lines := Split(oldSummary);
      CompressedKeepsTheDigest(oldSummary, digest, budget);
      assert KeptLines(Combine(oldSummary, digest, budget), digest) == Head(lines);
      KeyLineHasItsPlace(lines, i);
      HeadHolds(lines, Take(lines[i], 160));
      TurnsAreNoFact(lines, lines[i]);
    }

    lemma HeadHolds(lines: seq<Text>, line: Text)
      requires KeyFacts(lines) != []
      ensures line in Head(lines) <==>
              || line == header || line == keyFactsHeading || line in Take(KeyFacts(lines), 10)
              || (line == TotalTurns(lines) && line != [])
    {
    }

    lemma TurnsAreNoFact(lines: seq<Text>, line: Text)
      requires Valid() && IsKey(line)
      ensures Take(line, 160) != TotalTurns(lines) || TotalTurns(lines) == []
    {
      TotalTurnsBegins(lines);
      assert turnsMark <= Take(line, 160) ==> turnsMark <= line;
    }

    lemma {:induction false} TotalTurnsBegins(lines: seq<Text>)
      ensures TotalTurns(lines) == [] || turnsMark <= TotalTurns(lines)
      decreases |lines|
    {
      if lines != [] {
        TotalTurnsBegins(lines[..|lines| - 1]);
      }
    }

    lemma HeadIsLines(oldSummary: Text)
      requires Valid()
      ensures Split(Join(Head(Split(oldSummary)))) == Head(Split(oldSummary))
    {
      LinesHaveNoNewline(oldSummary);
      KeyFactsAreLines(Split(oldSummary));
      SplitJoin(Head(Split(oldSummary)));
    }

    /** However often the conversation is compacted, its summary fits and ends with the whole last digest. */
    lemma {:induction false} EverySummaryFits(batches: seq<seq<Message>>, budget: nat)
      requires Valid() && budget >= LEAST_BUDGET
      requires forall i :: 0 <= i < |batches| ==> 0 < |batches[i]| < COUNT_LIMIT
      ensures |Folded(batches, budget)| <= budget && LinesWithin(Folded(batches, budget), LINE_LIMIT)
      ensures batches != [] ==> EndsWith(Folded(batches, budget), Digest(batches[|batches| - 1]))
      decreases |batches|
    {
      if batches != [] {
        var earlier := batches[..|batches| - 1];
        EverySummaryFits(earlier, budget);
        StepKeepsTheDigest(Folded(earlier, budget), batches[|batches| - 1], budget);
      }
    }
  }

  // ----- the phrases of the application

  function Units(s: string): (t: Text)
    ensures |t| == |s| && forall i :: 0 <= i < |s| ==> t[i] == s[i] as nat
  {
    seq(|s|, i requires 0 <= i < |s| => s[i] as nat)
  }

  function Spanish(isRule: Text -> bool, collapse: Text -> Text, isDecision: Text -> bool): Phrases {
    Phrases(Units("Resumen de la conversaci\U{00F3}n (compactado)."), Units("Turnos anteriores:"),
            Units(" del CEO y "), Units(" de la empresa."),
            Units("Primer tema del CEO: "), Units("\U{00DA}ltimo tema del CEO en este tramo: "),
            Units("Hechos mencionados:"), Units("Hechos clave:"), Units("- "),
            isRule, collapse, isDecision)
  }

  lemma SpanishIsValid(isRule: Text -> bool, collapse: Text -> Text, isDecision: Text -> bool)
    ensures Spanish(isRule, collapse, isDecision).Valid()
  {
  }

  /** With the application's phrases the longest digest of an array has 1319 units, so a budget of that much is always kept. */
  lemma SpanishLongestDigest(isRule: Text -> bool, collapse: Text -> Text, isDecision: Text -> bool)
    ensures Spanish(isRule, collapse, isDecision).LongestDigest(ARRAY_DIGITS) == 1319
    ensures Spanish(isRule, collapse, isDecision).LongestDigest(20) == DELTA_LIMIT
  {
  }

  /** With the default budget and the application's own phrases. */
  lemma {:induction false} DefaultSummaryFits(
      isRule: Text -> bool, collapse: Text -> Text, isDecision: Text -> bool, batches: seq<seq<Message>>)
    requires forall i :: 0 <= i < |batches| ==> 0 < |batches[i]| < COUNT_LIMIT
    ensures var phrases := Spanish(isRule, collapse, isDecision);
      var summary := phrases.Folded(batches, COMPACTION_SUMMARY_BUDGET);
      && |summary| <= COMPACTION_SUMMARY_BUDGET
      && (batches != [] ==> EndsWith(summary, phrases.Digest(batches[|batches| - 1])))
  {
    SpanishIsValid(isRule, collapse, isDecision);
    Spanish(isRule, collapse, isDecision).EverySummaryFits(batches, COMPACTION_SUMMARY_BUDGET);
  }
}
