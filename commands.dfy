/** The command classifier `get_cmd_type` of the alarm program.

    A line is first tried as a schedule command `<seconds> <type word> <message>`
    (code 3). Failing that, it must consist of two words: a command word and a
    type word. The type word carries the message type as the first run of digits
    after a non-empty run of non-digits. Then the command word
    `Create_Thread:` gives code 1 and `Terminate_Thread:` gives code 2. Every
    other line is a bad command (code -1).
 */
module Commands {
  import opened Scanf

  const CreateThreadWord: string := "Create_Thread:"
  const TerminateThreadWord: string := "Terminate_Thread:"

  /** The literal the type word is compared with. */
  const TypeLiteral: string := "MessageType("

  /** The number of characters actually compared: `strlen("MessageType(") - 1`,
      which leaves out the opening parenthesis. */
  const ComparedLength: nat := |TypeLiteral| - 1

  /** The field width of the message conversion. */
  const MessageWidth: nat := 64

  /** The three conversions of the schedule format. */
  datatype ScheduleFields = ScheduleFields(seconds: int, typeWord: string, message: string)

  /** `sscanf(line, "%d %s %64[^\n]", ...) == 3`: all three conversions succeed. */
  function ScanSchedule(line: string): (r: Option<ScheduleFields>)
    ensures r.Some? ==> r.value.typeWord != [] && 0 < |r.value.message| <= MessageWidth
  {
    match ScanInt(line)
    case None => None
    case Some(d) =>
      match ScanWord(SkipSpace(d.rest))
      case None => None
      case Some(w) =>
        match ScanLine(SkipSpace(w.rest), MessageWidth)
        case None => None
        case Some(m) => Some(ScheduleFields(d.value, w.value, m.value))
  }

  /** The command word and the type word of a thread command. */
  datatype Words = Words(command: string, typeWord: string)

  /** `sscanf(line, "%s %s[^\n]", cmd, type) == 2`. The literal `[^\n]` after
      the second conversion is matched only once both words are read, so it
      cannot change the count. */
  function ScanCommand(line: string): (r: Option<Words>)
    ensures r.Some? ==> r.value.command != [] && r.value.typeWord != []
  {
    match ScanWord(line)
    case None => None
    case Some(c) =>
      match ScanWord(SkipSpace(c.rest))
      case None => None
      case Some(t) => Some(Words(c.value, t.value))
  }

  /** `sscanf(typeWord, "%*[^0123456789]%d", &msg_type) == 1`, with the value read. */
  function ScanMessageType(typeWord: string): (r: Option<int>)
    ensures r.Some? ==> r.value >= 0
  {
    match SkipNonDigits(typeWord)
    case None => None
    case Some(rest) =>
      SkipNonDigitsSpec(typeWord);
      NoSpaceToSkip(rest);
      match ScanInt(rest)
      case None => None
      case Some(d) => Some(d.value)
  }

  /** `strncmp(typeWord, "MessageType(", n) == 0` for `n` at most the literal's
      length: a shorter word differs at its terminating NUL. */
  predicate PrefixEqual(typeWord: string, n: nat)
    requires n <= |TypeLiteral|
  {
    n <= |typeWord| && typeWord[..n] == TypeLiteral[..n]
  }

  /** The return code and what was stored through each out-parameter
      (`None`: left as it was). */
  datatype Outcome = Outcome(code: int, msgType: Option<int>, alarmSecond: Option<int>, message: Option<string>)

  /** The classifier, with the number of compared prefix characters as a
      parameter. `alarm_second` is stored whenever the first `%d` succeeds,
      `message` only when the schedule format matches, and `msg_type` whenever
      the type word's `%d` succeeds. */
  function Classify(line: string, n: nat): (r: Outcome)
    requires n <= |TypeLiteral|
    ensures r.code == -1 || r.code == 1 || r.code == 2 || r.code == 3
    ensures r.code == 3 <==> ScanSchedule(line).Some?
    ensures r.code == 3 ==>
      && r.message == Some(ScanSchedule(line).value.message)
      && r.alarmSecond == Some(ScanSchedule(line).value.seconds)
    ensures r.code != 3 ==> r.message.None?
    ensures (r.code == 1 || r.code == 2) ==>
      && ScanCommand(line).Some?
      && var ws := ScanCommand(line).value;
      && ws.command == (if r.code == 1 then CreateThreadWord else TerminateThreadWord)
      && PrefixEqual(ws.typeWord, n)
      && r.msgType == ScanMessageType(ws.typeWord)
      && r.msgType.Some? && r.msgType.value >= 1
    ensures ScanSchedule(line).None? && ScanCommand(line).Some? ==>
      var ws := ScanCommand(line).value;
      var t := ScanMessageType(ws.typeWord);
      var accepted := t.Some? && t.value >= 1 && PrefixEqual(ws.typeWord, n);
      && (r.code == 1 <==> accepted && ws.command == CreateThreadWord)
      && (r.code == 2 <==> accepted && ws.command == TerminateThreadWord)
  {
    var second := match ScanInt(line) case Some(d) => Some(d.value) case None => None;
    match ScanSchedule(line)
    case Some(f) => Outcome(3, None, Some(f.seconds), Some(f.message))
    case None =>
      match ScanCommand(line)
      case None => Outcome(-1, None, second, None)
      case Some(ws) =>
        var t := ScanMessageType(ws.typeWord);
        var code :=
          if t.Some? && PrefixEqual(ws.typeWord, n) then
            if t.value < 1 then -1
            else if ws.command == CreateThreadWord then 1
            else if ws.command == TerminateThreadWord then 2
            else -1
          else -1;
        Outcome(code, t, second, None)
  }

  /** `get_cmd_type` as written: only the first 11 characters of the type word
      are compared, so the parenthesis is never checked. */
  function GetCmdType(line: string): (r: Outcome)
    ensures r.code == -1 || r.code == 1 || r.code == 2 || r.code == 3
    ensures r.code == 3 <==> ScanSchedule(line).Some?
    ensures r.code == 3 ==>
      && r.message == Some(ScanSchedule(line).value.message)
      && r.alarmSecond == Some(ScanSchedule(line).value.seconds)
    ensures r.code != 3 ==> r.message.None?
    ensures (r.code == 1 || r.code == 2) ==>
      && ScanCommand(line).Some?
      && var ws := ScanCommand(line).value;
      && ws.command == (if r.code == 1 then CreateThreadWord else TerminateThreadWord)
      && |ws.typeWord| >= 11 && ws.typeWord[..11] == "MessageType"
      && r.msgType == ScanMessageType(ws.typeWord)
      && r.msgType.Some? && r.msgType.value >= 1
    ensures ScanSchedule(line).None? && ScanCommand(line).Some? ==>
      var ws := ScanCommand(line).value;
      var t := ScanMessageType(ws.typeWord);
      var accepted := t.Some? && t.value >= 1 && |ws.typeWord| >= 11 && ws.typeWord[..11] == "MessageType";
      && (r.code == 1 <==> accepted && ws.command == CreateThreadWord)
      && (r.code == 2 <==> accepted && ws.command == TerminateThreadWord)
  {
    assert ComparedLength == 11 && TypeLiteral[..ComparedLength] == "MessageType";
    Classify(line, ComparedLength)
  }

  /** The classifier with the whole literal `MessageType(` compared. */
  function GetCmdTypeIntended(line: string): (r: Outcome)
    ensures r.code == -1 || r.code == 1 || r.code == 2 || r.code == 3
    ensures r.code == 3 <==> ScanSchedule(line).Some?
    ensures r.code == 3 ==>
      && r.message == Some(ScanSchedule(line).value.message)
      && r.alarmSecond == Some(ScanSchedule(line).value.seconds)
    ensures r.code != 3 ==> r.message.None?
    ensures (r.code == 1 || r.code == 2) ==>
      && ScanCommand(line).Some?
      && var ws := ScanCommand(line).value;
      && ws.command == (if r.code == 1 then CreateThreadWord else TerminateThreadWord)
      && |ws.typeWord| >= 12 && ws.typeWord[..12] == "MessageType("
      && r.msgType == ScanMessageType(ws.typeWord)
      && r.msgType.Some? && r.msgType.value >= 1
    ensures ScanSchedule(line).None? && ScanCommand(line).Some? ==>
      var ws := ScanCommand(line).value;
      var t := ScanMessageType(ws.typeWord);
      var accepted := t.Some? && t.value >= 1 && |ws.typeWord| >= 12 && ws.typeWord[..12] == "MessageType(";
      && (r.code == 1 <==> accepted && ws.command == CreateThreadWord)
      && (r.code == 2 <==> accepted && ws.command == TerminateThreadWord)
  {
    assert |TypeLiteral| == 12 && TypeLiteral[..|TypeLiteral|] == "MessageType(";
    Classify(line, |TypeLiteral|)
  }

  /** The two classifiers differ only on lines whose type word passes the
      11-character comparison but has no parenthesis after `MessageType`. */
  lemma IntendedAgreesElsewhere(line: string)
    requires ScanCommand(line).Some? ==>
      var tw := ScanCommand(line).value.typeWord;
      !PrefixEqual(tw, ComparedLength) || PrefixEqual(tw, |TypeLiteral|)
    ensures GetCmdTypeIntended(line) == GetCmdType(line)
  {
    if ScanSchedule(line).None? && ScanCommand(line).Some? {
      var ws := ScanCommand(line).value;
      PrefixEqualNested(ws.typeWord);
      ClassifyByPrefix(line, ws, ComparedLength, |TypeLiteral|);
    }
  }

  /** A word equal to the whole literal on its first 12 characters also equals
      it on the first 11. */
  lemma PrefixEqualNested(tw: string)
    ensures PrefixEqual(tw, |TypeLiteral|) ==> PrefixEqual(tw, ComparedLength)
  {
    if PrefixEqual(tw, |TypeLiteral|) {
      assert tw[..ComparedLength] == tw[..|TypeLiteral|][..ComparedLength];
      assert TypeLiteral[..ComparedLength] == TypeLiteral[..|TypeLiteral|][..ComparedLength];
    }
  }

  /** The compared length matters only through the outcome of the comparison. */
  lemma ClassifyByPrefix(line: string, ws: Words, n: nat, m: nat)
    requires n <= |TypeLiteral| && m <= |TypeLiteral|
    requires ScanSchedule(line).None? && ScanCommand(line) == Some(ws)
    requires PrefixEqual(ws.typeWord, n) == PrefixEqual(ws.typeWord, m)
    ensures Classify(line, n) == Classify(line, m)
  {
  }

  /** The message type is the digit run that follows a non-empty run of
      non-digits: a word that starts with a digit, or has no digit, has none. */
  lemma ScanMessageTypeShape(typeWord: string)
    ensures ScanMessageType(typeWord).Some? <==>
      typeWord != [] && !IsDigit(typeWord[0]) &&
      exists i :: 0 <= i < |typeWord| && IsDigit(typeWord[i])
    ensures ScanMessageType(typeWord).Some? ==>
      ScanMessageType(typeWord) == Some(DigitsValue(DigitRun(typeWord[Span(typeWord, IsNonDigit)..])))
  {
    SkipNonDigitsSpec(typeWord);
    if typeWord != [] && !IsDigit(typeWord[0]) {
      var k := Span(typeWord, IsNonDigit);
      var rest := typeWord[k..];
      assert SkipNonDigits(typeWord) == Some(rest);
      if k < |typeWord| {
        assert IsDigit(typeWord[k]);
        ScanIntDigitRun(rest);
      } else {
        assert rest == [];
        assert ScanInt(rest).None? by { assert SkipSpace(rest) == []; }
      }
    }
  }

  /** The type word `<prefix><n>)`. */
  function TypeWord(prefix: string, n: nat): string
  {
    prefix + DecimalString(n) + ")"
  }

  /** A thread command line `<word> <prefix><n>)` followed by a newline. */
  function ThreadLine(word: string, prefix: string, n: nat): string
  {
    word + " " + TypeWord(prefix, n) + "\n"
  }

  /** A line that starts with neither white space, a sign nor a digit is not
      a schedule command. */
  lemma NotScheduleLine(line: string)
    requires line != [] && !IsSpace(line[0]) && !IsDigit(line[0]) && line[0] != '-' && line[0] != '+'
    ensures ScanInt(line).None? && ScanSchedule(line).None?
  {
    SkipSpaceExact([], line);
    assert [] + line == line;
  }

  /** Two words separated by a blank and followed by a newline are read back. */
  lemma ScanCommandExact(c: string, t: string)
    requires c != [] && forall i :: 0 <= i < |c| ==> !IsSpace(c[i])
    requires t != [] && forall i :: 0 <= i < |t| ==> !IsSpace(t[i])
    ensures ScanCommand(c + " " + t + "\n") == Some(Words(c, t))
  {
    var afterWord := " " + (t + "\n");
    assert c + " " + t + "\n" == c + afterWord;
    ScanWordExact(c, afterWord);
    SkipSpaceExact(" ", t + "\n");
    ScanWordExact(t, "\n");
  }

  /** The type word is a single word when its prefix has no white space. */
  lemma TypeWordNoSpace(prefix: string, n: nat)
    requires forall i :: 0 <= i < |prefix| ==> !IsSpace(prefix[i])
    ensures var tw := TypeWord(prefix, n);
      tw != [] && forall i :: 0 <= i < |tw| ==> !IsSpace(tw[i])
  {
    var ds := DecimalString(n);
    var tw := TypeWord(prefix, n);
    forall i | 0 <= i < |tw| ensures !IsSpace(tw[i]) {
      if i < |prefix| { assert tw[i] == prefix[i]; }
      else if i < |prefix| + |ds| { assert tw[i] == ds[i - |prefix|]; }
    }
  }

  /** The type word `<prefix><digits>)` carries the number of its digits. */
  lemma TypeWordValue(prefix: string, n: nat)
    requires prefix != [] && forall i :: 0 <= i < |prefix| ==> !IsDigit(prefix[i])
    ensures ScanMessageType(TypeWord(prefix, n)) == Some(n)
  {
    var ds := DecimalString(n);
    assert TypeWord(prefix, n) == prefix + (ds + ")");
    SpanConcat(prefix, ds + ")", IsNonDigit);
    assert SkipNonDigits(prefix + (ds + ")")) == Some(ds + ")");
    ScanIntDecimal(n, ")");
  }

  /** Classifying a thread command line: the words are read back, the type is
      the number after the prefix, and the code depends only on the prefix
      comparison, on the type being positive and on the command word. */
  lemma ClassifyThreadLine(word: string, prefix: string, n: nat, len: nat)
    requires word == CreateThreadWord || word == TerminateThreadWord
    requires prefix != [] && forall i :: 0 <= i < |prefix| ==> !IsSpace(prefix[i]) && !IsDigit(prefix[i])
    requires len <= |TypeLiteral|
    ensures var tw := TypeWord(prefix, n);
      Classify(ThreadLine(word, prefix, n), len) == Outcome(
        if PrefixEqual(tw, len) && n >= 1 then (if word == CreateThreadWord then 1 else 2) else -1,
        Some(n), None, None)
  {
    var line := ThreadLine(word, prefix, n);
    assert line[0] == word[0];
    assert word != [] && forall i :: 0 <= i < |word| ==> !IsSpace(word[i]) && !IsDigit(word[i]);
    NotScheduleLine(line);
    TypeWordNoSpace(prefix, n);
    ScanCommandExact(word, TypeWord(prefix, n));
    TypeWordValue(prefix, n);
  }

  /** Formatting a thread command in its documented form and classifying
      it gives back the command and the message type. */
  lemma ThreadCommandRoundTrip(word: string, n: nat)
    requires word == CreateThreadWord || word == TerminateThreadWord
    requires n >= 1
    ensures GetCmdType(ThreadLine(word, TypeLiteral, n))
      == Outcome(if word == CreateThreadWord then 1 else 2, Some(n), None, None)
  {
    var line := ThreadLine(word, TypeLiteral, n);
    assert PrefixEqual(TypeWord(TypeLiteral, n), ComparedLength) by {
      LiteralPrefixEqual(TypeLiteral, n);
    }
    ClassifyThreadLine(word, TypeLiteral, n, ComparedLength);
    assert GetCmdType(line) == Classify(line, ComparedLength);
  }

  /** A minus sign in front of the type is swallowed by the non-digit run, so
      `MessageType(-n)` is read as type `n` and accepted. */
  lemma NegativeTypeAccepted(word: string, n: nat)
    requires word == CreateThreadWord || word == TerminateThreadWord
    requires n >= 1
    ensures GetCmdType(ThreadLine(word, TypeLiteral + "-", n))
      == Outcome(if word == CreateThreadWord then 1 else 2, Some(n), None, None)
  {
    var line := ThreadLine(word, TypeLiteral + "-", n);
    assert PrefixEqual(TypeWord(TypeLiteral + "-", n), ComparedLength) by {
      LiteralPrefixEqual(TypeLiteral + "-", n);
    }
    ClassifyThreadLine(word, TypeLiteral + "-", n, ComparedLength);
    assert GetCmdType(line) == Classify(line, ComparedLength);
  }

  /** A type of 0 is read and then rejected. */
  lemma ZeroTypeRejected(word: string)
    requires word == CreateThreadWord || word == TerminateThreadWord
    ensures GetCmdType(ThreadLine(word, TypeLiteral, 0)) == Outcome(-1, Some(0), None, None)
  {
    ClassifyThreadLine(word, TypeLiteral, 0, ComparedLength);
  }

  /** The 11-character comparison succeeds on any word that starts with a
      string whose first 11 characters are those of the literal. */
  lemma LiteralPrefixEqual(prefix: string, n: nat)
    requires |prefix| >= ComparedLength && prefix[..ComparedLength] == TypeLiteral[..ComparedLength]
    ensures PrefixEqual(TypeWord(prefix, n), ComparedLength)
  {
    assert TypeWord(prefix, n)[..ComparedLength] == prefix[..ComparedLength];
  }

  /** The off-by-one as written: `MessageType<n>)` without the opening
      parenthesis is accepted as a thread command. */
  lemma MissingParenthesisAccepted(word: string, n: nat)
    requires word == CreateThreadWord || word == TerminateThreadWord
    requires n >= 1
    ensures GetCmdType(ThreadLine(word, "MessageType", n))
      == Outcome(if word == CreateThreadWord then 1 else 2, Some(n), None, None)
  {
    var line := ThreadLine(word, "MessageType", n);
    assert PrefixEqual(TypeWord("MessageType", n), ComparedLength) by {
      LiteralPrefixEqual("MessageType", n);
    }
    ClassifyThreadLine(word, "MessageType", n, ComparedLength);
    assert GetCmdType(line) == Classify(line, ComparedLength);
  }

  /** The corrected comparison rejects the same line. */
  lemma MissingParenthesisRejected(word: string, n: nat)
    requires word == CreateThreadWord || word == TerminateThreadWord
    ensures GetCmdTypeIntended(ThreadLine(word, "MessageType", n)) == Outcome(-1, Some(n), None, None)
  {
    ClassifyThreadLine(word, "MessageType", n, |TypeLiteral|);
    DigitAfterTypeFails(DecimalString(n) + ")");
  }

  /** A digit where the parenthesis belongs fails the whole-literal comparison. */
  lemma DigitAfterTypeFails(tail: string)
    requires tail != [] && IsDigit(tail[0])
    ensures !PrefixEqual("MessageType" + tail, |TypeLiteral|)
  {
    assert ("MessageType" + tail)[ComparedLength] == tail[0];
  }

  /** A schedule command line `<seconds> <type word> <message>` followed by a newline. */
  function ScheduleLine(seconds: nat, typeWord: string, message: string): string
  {
    DecimalString(seconds) + " " + typeWord + " " + message + "\n"
  }

  /** A blank, then a word followed by white space: the word is read. */
  lemma WordAfterBlank(w: string, rest: string)
    requires w != [] && forall i :: 0 <= i < |w| ==> !IsSpace(w[i])
    requires rest == [] || IsSpace(rest[0])
    ensures ScanWord(SkipSpace(" " + (w + rest))) == Some(Scan(w, rest))
  {
    SkipSpaceExact(" ", w + rest);
    ScanWordExact(w, rest);
  }

  /** A blank, then a message of at most 64 characters up to the newline: the
      whole message is read. */
  lemma MessageAfterBlank(m: string)
    requires 0 < |m| <= MessageWidth && !IsSpace(m[0])
    requires forall i :: 0 <= i < |m| ==> m[i] != '\n'
    ensures ScanLine(SkipSpace(" " + (m + "\n")), MessageWidth) == Some(Scan(m, "\n"))
  {
    SkipSpaceExact(" ", m + "\n");
    SpanConcat(m, "\n", IsNotNewline);
    assert (m + "\n")[..|m|] == m && (m + "\n")[|m|..] == "\n";
  }

  /** The schedule format reads back the three fields of a schedule line. */
  lemma ScanScheduleExact(seconds: nat, typeWord: string, message: string)
    requires typeWord != [] && forall i :: 0 <= i < |typeWord| ==> !IsSpace(typeWord[i])
    requires 0 < |message| <= MessageWidth && !IsSpace(message[0])
    requires forall i :: 0 <= i < |message| ==> message[i] != '\n'
    ensures ScanSchedule(ScheduleLine(seconds, typeWord, message))
      == Some(ScheduleFields(seconds, typeWord, message))
  {
    var afterType := " " + (message + "\n");
    var afterSeconds := " " + (typeWord + afterType);
    assert ScheduleLine(seconds, typeWord, message) == DecimalString(seconds) + afterSeconds;
    ScanIntDecimal(seconds, afterSeconds);
    WordAfterBlank(typeWord, afterType);
    MessageAfterBlank(message);
  }

  /** Formatting a schedule command and classifying it gives back its delay and
      its message, whatever the type word. */
  lemma ScheduleRoundTrip(seconds: nat, typeWord: string, message: string)
    requires typeWord != [] && forall i :: 0 <= i < |typeWord| ==> !IsSpace(typeWord[i])
    requires 0 < |message| <= MessageWidth && !IsSpace(message[0])
    requires forall i :: 0 <= i < |message| ==> message[i] != '\n'
    ensures GetCmdType(ScheduleLine(seconds, typeWord, message))
      == Outcome(3, None, Some(seconds), Some(message))
  {
    ScanScheduleExact(seconds, typeWord, message);
  }
}
