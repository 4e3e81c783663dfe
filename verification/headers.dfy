/**
 * Read-receipt requests (crates/common/src/headers.rs:1-58): the `Disposition-Notification-To` header of section 2.1 of
 * RFC 8098 is added to a raw message, in an ASCII model where a byte is a character.
 */
module Headers {
  import opened Wrappers

  const CRLF := "\r\n"
  const BLANK := "\r\n\r\n"
  const FROM := "from:"
  const RECEIPT := "disposition-notification-to:"
  const HEADER_NAME := "Disposition-Notification-To: <"

  // ---------------------------------------------------------------- text

  function ToAsciiLowercase(s: string): (r: string)
    ensures |r| == |s|
  {
    seq(|s|, i requires 0 <= i < |s| => if 'A' <= s[i] <= 'Z' then 'a' + (s[i] - 'A') else s[i])
  }

  predicate StartsWith(s: string, prefix: string) {
    |prefix| <= |s| && s[..|prefix|] == prefix
  }

  predicate IsSpace(c: char) {
    c == ' ' || c == '\t' || c == '\n' || c == '\r' || c == '\U{000B}' || c == '\U{000C}'
  }

  function TrimStart(s: string): (r: string)
    ensures |r| <= |s| && s[|s| - |r|..] == r
  {
    if s != "" && IsSpace(s[0]) then TrimStart(s[1..]) else s
  }

  function TrimEnd(s: string): (r: string)
    ensures r <= s
  {
    if s != "" && IsSpace(s[|s| - 1]) then TrimEnd(s[..|s| - 1]) else s
  }

  function Trim(s: string): (r: string) {
    TrimEnd(TrimStart(s))
  }

  /** The first place at which the pattern occurs. */
  function FindFirst(s: string, pattern: string): (r: Option<nat>)
    ensures r.Some? ==> OccursAt(s, pattern, r.value) && forall i :: 0 <= i < r.value ==> !OccursAt(s, pattern, i)
    ensures r == None ==> forall i :: 0 <= i <= |s| ==> !OccursAt(s, pattern, i)
  {
    FindFrom(s, pattern, 0)
  }

  predicate OccursAt(s: string, pattern: string, i: nat) {
    i + |pattern| <= |s| && s[i..i + |pattern|] == pattern
  }

  function FindFrom(s: string, pattern: string, from: nat): (r: Option<nat>)
    requires from <= |s|
    requires forall i :: 0 <= i < from ==> !OccursAt(s, pattern, i)
    ensures r.Some? ==> OccursAt(s, pattern, r.value) && forall i :: 0 <= i < r.value ==> !OccursAt(s, pattern, i)
    ensures r == None ==> forall i :: 0 <= i <= |s| ==> !OccursAt(s, pattern, i)
    decreases |s| - from
  {
    if OccursAt(s, pattern, from) then Some(from)
    else if from == |s| then None
    else FindFrom(s, pattern, from + 1)
  }

  /** The last place of a character. */
  function FindLast(s: string, c: char): (r: Option<nat>)
    ensures r.Some? ==> r.value < |s| && s[r.value] == c
  {
    if s == "" then None
    else if s[|s| - 1] == c then Some(|s| - 1)
    else FindLast(s[..|s| - 1], c)
  }

  // ---------------------------------------------------------------- lines

  predicate NoLineFeed(s: string) {
    forall i :: 0 <= i < |s| ==> s[i] != '\n'
  }

  /** Up to the first line feed; the whole text if there is none. */
  function LineEnd(s: string): (n: nat)
    ensures n <= |s| && (forall i :: 0 <= i < n ==> s[i] != '\n') && (n < |s| ==> s[n] == '\n')
  {
    if s == "" || s[0] == '\n' then 0
    else
      var n := LineEnd(s[1..]);
      assert forall i :: 0 < i <= n ==> s[i] == s[1..][i - 1];
      n + 1
  }

  function WithoutCr(line: string): (r: string) {
    if line != "" && line[|line| - 1] == '\r' then line[..|line| - 1] else line
  }

  /** `lines()`: split at line feeds, a carriage return before one belongs to the line break, no empty last line. */
  function Lines(s: string): (r: seq<string>) {
    if s == "" then []
    else
      var n := LineEnd(s);
      if n == |s| then [s] else [WithoutCr(s[..n])] + Lines(s[n + 1..])
  }

  lemma {:induction false} LinesHoldNoLineFeed(s: string, i: nat)
    requires i < |Lines(s)|
    ensures NoLineFeed(Lines(s)[i])
    decreases |s|
  {
    var n := LineEnd(s);
    if n < |s| && i > 0 {
      LinesHoldNoLineFeed(s[n + 1..], i - 1);
    }
  }

  // ---------------------------------------------------------------- what the scan finds

  function HeaderBlock(raw: string): (r: string) {
    match FindFirst(raw, BLANK)
    case Some(at) => raw[..at]
    case None => raw
  }

  predicate IsReceiptLine(line: string) {
    StartsWith(ToAsciiLowercase(line), RECEIPT)
  }

  predicate HasReceipt(block: string) {
    exists i :: 0 <= i < |Lines(block)| && IsReceiptLine(Lines(block)[i])
  }

  /** The address of one line, if it is a From line that holds one. */
  function SenderOf(line: string): (r: Option<string>) {
    if !StartsWith(ToAsciiLowercase(line), FROM) then None
    else
      var value := Trim(line[|FROM|..]);
      match FindLast(value, '<')
      case None => Some(value)
      case Some(start) =>
        match FindFirst(value[start + 1..], ">")
        case None => None
        case Some(end) => Some(value[start + 1..][..end])
  }

  lemma SenderOfHoldsNoLineFeed(line: string)
    requires NoLineFeed(line) && SenderOf(line).Some?
    ensures NoLineFeed(SenderOf(line).value)
  {
    TrimHoldsNoLineFeed(line[|FROM|..]);
  }

  lemma TrimHoldsNoLineFeed(s: string)
    requires NoLineFeed(s)
    ensures NoLineFeed(Trim(s))
  {
    var t := TrimStart(s);
    assert NoLineFeed(t) by {
      assert forall i :: 0 <= i < |t| ==> t[i] == s[|s| - |t|..][i];
    }
    assert Trim(s) <= t;
  }

  /** The first line with an address; a From line with `<` and no `>` after it is passed over. */
  function FindSender(lines: seq<string>): (sender: Option<string>)
    ensures sender.Some? ==> exists i :: 0 <= i < |lines| && SenderOf(lines[i]) == sender
  {
    if lines == [] then None
    else if SenderOf(lines[0]).Some? then
      SenderOf(lines[0])
    else
      var r := FindSender(lines[1..]);
      assert r.Some? ==> exists i :: 0 < i < |lines| && SenderOf(lines[i]) == r by {
        if r.Some? {
          var j :| 0 <= j < |lines[1..]| && SenderOf(lines[1..][j]) == r;
          assert SenderOf(lines[j + 1]) == r;
        }
      }
      r
  }

  function HeaderText(sender: string): (r: string) {
    HEADER_NAME + sender + ">"
  }

  /** Where the header goes and whom it names; None when the message is left as it is. */
  function Injection(raw: string): (r: Option<(nat, string)>) {
    var block := HeaderBlock(raw);
    if HasReceipt(block) then None
    else
      match (FindSender(Lines(block)), FindFirst(raw, BLANK))
      case (Some(sender), Some(at)) => Some((at, sender))
      case _ => None
  }

  /** The raw message with one more header line before the blank line at `at`. */
  function Spliced(raw: string, at: nat, header: string): (r: string)
    requires at + 2 <= |raw|
  {
    raw[..at] + CRLF + (header + CRLF) + raw[at + 2..]
  }

  function Injected(raw: string): (r: string) {
    match Injection(raw)
    case None => raw
    case Some((at, sender)) => Spliced(raw, at, HeaderText(sender))
  }

  /** The result is built by appending to a buffer. */
  method InjectReadReceiptHeader(raw: string) returns (result: string)
    ensures result == Injected(raw)
  {
    var headerBlock := HeaderBlock(raw);
    var lines := Lines(headerBlock);
    if exists i :: 0 <= i < |lines| && IsReceiptLine(lines[i]) {
      return raw;
    }
    var sender := FindSender(lines);
    if sender == None {
      return raw;
    }
    var at := FindFirst(raw, BLANK);
    if at == None {
      return raw;
    }
    var headerLine := HeaderText(sender.value) + CRLF;
    result := "";
    result := result + raw[..at.value];
    assert result == raw[..at.value];
    result := result + CRLF;
    result := result + headerLine;
    result := result + raw[at.value + 2..];
  }

  // ---------------------------------------------------------------- the new header ends the header block

  lemma OccursAtBlank(s: string, i: nat)
    ensures OccursAt(s, BLANK, i) <==>
            i + 4 <= |s| && s[i] == '\r' && s[i + 1] == '\n' && s[i + 2] == '\r' && s[i + 3] == '\n'
  {
    if i + 4 <= |s| {
      var t := s[i..i + 4];
      assert t[0] == s[i] && t[1] == s[i + 1] && t[2] == s[i + 2] && t[3] == s[i + 3];
      if s[i] == '\r' && s[i + 1] == '\n' && s[i + 2] == '\r' && s[i + 3] == '\n' {
        assert t == BLANK;
      }
    }
  }

  /** A header line after headers that hold no blank line and do not end in a line break: the first blank line follows it. */
  lemma FirstBlankFollows(raw: string, at: nat, header: string)
    requires FindFirst(raw, BLANK) == Some(at) && NoLineFeed(header) && header != ""
    ensures FindFirst(Spliced(raw, at, header), BLANK) == Some(at + 2 + |header|)
  {
    var result := Spliced(raw, at, header);
    var end := at + 2 + |header|;
    OccursAtBlank(raw, at);
    OccursAtBlank(result, end);
    assert result[end] == '\r' && result[end + 1] == '\n' && result[end + 2] == raw[at + 2] && result[end + 3] == raw[at + 3];
    forall i | 0 <= i < end ensures !OccursAt(result, BLANK, i) {
      OccursAtBlank(result, i);
      OccursAtBlank(raw, i);
      assert !OccursAt(raw, BLANK, i) || i >= at;
      if i + 3 < at {
        assert result[i] == raw[i] && result[i + 1] == raw[i + 1] && result[i + 2] == raw[i + 2] && result[i + 3] == raw[i + 3];
      } else if i + 3 == at {
        assert result[i + 3] == '\r';
      } else if i + 3 == at + 1 {
        assert result[i] == raw[i] && result[i + 1] == raw[i + 1] && raw[i + 2] == '\r' && raw[i + 3] == '\n';
      } else if i + 3 < end {
        assert result[i + 3] == header[i + 3 - at - 2];
      } else if i + 3 == end || i + 3 == end + 2 {
        assert result[i + 3] == '\r';
      } else {
        assert result[i + 1] == header[|header| - 1];
      }
    }
  }

  lemma LineEndIs(s: string, n: nat)
    requires n <= |s| && (forall i :: 0 <= i < n ==> s[i] != '\n') && (n < |s| ==> s[n] == '\n')
    ensures LineEnd(s) == n
  {
  }

  /** Header lines before the new one, as `lines()` gives them: an unfinished last line is finished by the added break. */
  function LinesBefore(block: string): (r: seq<string>) {
    Lines(block) + if block == "" || block[|block| - 1] == '\n' then [""] else []
  }

  lemma LinesOfLast(s: string)
    requires s != "" && NoLineFeed(s)
    ensures Lines(s) == [s]
  {
    LineEndIs(s, |s|);
  }

  lemma LinesOfFirst(line: string, rest: string)
    requires NoLineFeed(line)
    ensures Lines(line + "\n" + rest) == [WithoutCr(line)] + Lines(rest)
  {
    var s := line + "\n" + rest;
    LineEndIs(s, |line|);
    assert s[..|line|] == line && s[|line| + 1..] == rest;
  }

  /** The lines of the longer block are the old ones and the new header. */
  lemma {:induction false} LinesAppend(block: string, header: string)
    requires header != "" && NoLineFeed(header)
    ensures Lines(block + (CRLF + header)) == LinesBefore(block) + [header]
    decreases |block|
  {
    var n := LineEnd(block);
    if n == |block| {
      LinesOfUnbroken(block, header);
    } else {
      assert block == block[..n] + "\n" + block[n + 1..];
      LinesAppend(block[n + 1..], header);
      LinesAppendFirst(block[..n], block[n + 1..], header);
    }
  }

  lemma Regrouped(a: string, b: string, c: string, d: string)
    ensures (a + b + c) + d == a + b + (c + d)
  {
  }

  lemma LinesAppendFirst(line: string, rest: string, header: string)
    requires NoLineFeed(line)
    requires Lines(rest + (CRLF + header)) == LinesBefore(rest) + [header]
    ensures var block := line + "\n" + rest;
            Lines(block + (CRLF + header)) == LinesBefore(block) + [header]
  {
    var more := CRLF + header;
    Regrouped(line, "\n", rest, more);
    LinesOfFirst(line, rest + more);
    LinesBeforeFirst(line, rest);
  }

  lemma LinesBeforeFirst(line: string, rest: string)
    requires NoLineFeed(line)
    ensures LinesBefore(line + "\n" + rest) == [WithoutCr(line)] + LinesBefore(rest)
  {
    LinesOfFirst(line, rest);
    var s := line + "\n" + rest;
    assert s[|s| - 1] == if rest == "" then '\n' else rest[|rest| - 1];
  }

  lemma LinesOfUnbroken(block: string, header: string)
    requires NoLineFeed(block) && header != "" && NoLineFeed(header)
    ensures Lines(block + (CRLF + header)) == LinesBefore(block) + [header]
  {
    LinesOfFirst(block + "\r", header);
    LinesOfLast(header);
    assert block + (CRLF + header) == block + "\r" + "\n" + header;
    assert WithoutCr(block + "\r") == block;
    if block != "" {
      LinesOfLast(block);
    }
  }

  /** The added header is a receipt header. */
  lemma HeaderTextIsReceipt(sender: string)
    ensures IsReceiptLine(HeaderText(sender))
  {
    var lower := ToAsciiLowercase(HeaderText(sender));
    assert ToAsciiLowercase(HEADER_NAME)[..28] == RECEIPT by {
      var name := ToAsciiLowercase(HEADER_NAME);
      assert |RECEIPT| == 28;
      assert forall i :: 0 <= i < 28 ==> name[i] == RECEIPT[i];
    }
    assert lower[..28] == ToAsciiLowercase(HEADER_NAME)[..28] by {
      assert HeaderText(sender)[..30] == HEADER_NAME;
    }
  }

  lemma SenderHasNoLineFeed(raw: string)
    requires Injection(raw).Some?
    ensures NoLineFeed(HeaderText(Injection(raw).value.1))
  {
    var lines, sender := Lines(HeaderBlock(raw)), Injection(raw).value.1;
    var i :| 0 <= i < |lines| && SenderOf(lines[i]) == Some(sender);
    LinesHoldNoLineFeed(HeaderBlock(raw), i);
    SenderOfHoldsNoLineFeed(lines[i]);
    HeaderTextHoldsNoLineFeed(sender);
  }

  lemma HeaderTextHoldsNoLineFeed(sender: string)
    requires NoLineFeed(sender)
    ensures NoLineFeed(HeaderText(sender))
  {
    assert NoLineFeed(HEADER_NAME);
  }

  // ---------------------------------------------------------------- what injection keeps

  /** What follows the first blank line. */
  function BodyOf(raw: string): (r: Option<string>) {
    match FindFirst(raw, BLANK)
    case Some(at) => Some(raw[at + |BLANK|..])
    case None => None
  }

  /**
   * The header block keeps its text and goes on with exactly one more header line, before the first blank line; the
   * body is unchanged.
   */
  lemma KeepsHeadersAndBody(raw: string)
    requires Injection(raw).Some?
    ensures HeaderBlock(Injected(raw)) == HeaderBlock(raw) + (CRLF + HeaderText(Injection(raw).value.1))
    ensures Lines(HeaderBlock(Injected(raw))) == LinesBefore(HeaderBlock(raw)) + [HeaderText(Injection(raw).value.1)]
    ensures BodyOf(Injected(raw)) == BodyOf(raw)
  {
    var (at, sender) := Injection(raw).value;
    SenderHasNoLineFeed(raw);
    SplicedParts(raw, at, HeaderText(sender));
    LinesAppend(raw[..at], HeaderText(sender));
  }

  lemma SplicedParts(raw: string, at: nat, header: string)
    requires FindFirst(raw, BLANK) == Some(at) && NoLineFeed(header) && header != ""
    ensures HeaderBlock(Spliced(raw, at, header)) == raw[..at] + (CRLF + header)
    ensures BodyOf(Spliced(raw, at, header)) == BodyOf(raw)
  {
    FirstBlankFollows(raw, at, header);
    var end, result := at + 2 + |header|, Spliced(raw, at, header);
    assert result[..end] == raw[..at] + (CRLF + header);
    assert result[end + 4..] == raw[at + 4..];
  }

  /** A message is changed exactly when its headers ask for no receipt yet, name a sender and end in a blank line. */
  lemma InjectedIff(raw: string)
    ensures Injected(raw) != raw <==>
            !HasReceipt(HeaderBlock(raw)) && FindSender(Lines(HeaderBlock(raw))).Some? && FindFirst(raw, BLANK).Some?
  {
    if Injection(raw).Some? {
      var (at, sender) := Injection(raw).value;
      assert |Injected(raw)| > |raw|;
    }
  }

  /** Afterwards the headers ask for a receipt exactly when they did before or the message was changed. */
  lemma AsksAfterwards(raw: string)
    ensures HasReceipt(HeaderBlock(Injected(raw))) <==> HasReceipt(HeaderBlock(raw)) || Injection(raw).Some?
  {
    if Injection(raw).Some? {
      KeepsHeadersAndBody(raw);
      var sender, lines := Injection(raw).value.1, Lines(HeaderBlock(Injected(raw)));
      HeaderTextIsReceipt(sender);
      assert lines[|lines| - 1] == HeaderText(sender);
    }
  }

  /** Asking twice asks once. */
  lemma Idempotent(raw: string)
    ensures Injected(Injected(raw)) == Injected(raw)
  {
    AsksAfterwards(raw);
  }
}
