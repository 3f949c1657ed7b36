/** A client's command line: which plugin it calls, and the hidden join among them
    (apps/chat/src/chat_accept.c:37-74, apps/chat/src/chat_command.c:23-59, apps/chat/src/hiddenjoin.c:41-63). */
module Commands {
  import opened Bytes
  import opened Options
  import opened Scanner
  import opened Transfer
  import opened ChatWorker
  import opened ChatSystem
  import opened ChatProcess

  const SLASH: byte := 47
  const UNDERSCORE: byte := 95
  const NEWLINE: byte := 10
  const CHAT_PREFIX: seq<byte> := Ascii("chat/")
  const HIDDEN_WORD: seq<byte> := Ascii("_hiddenjoin")
  const MAX_CHAT_MSG_SIZE := 255

  /** What handle_chat_request() passes on as a command. */
  predicate IsCommandLine(line: seq<byte>)
  {
    |line| > 0 && line[0] == SLASH && line[|line| - 1] == NEWLINE
  }

  /** Refused without a word, no command in it, or a call of the plugins at that place with the rest of the line. */
  datatype Command = Refused | NoCommand | Runs(space: seq<byte>, request: seq<byte>)

  function CommandOf(line: seq<byte>): Command
    requires IsCommandLine(line)
  {
    var text := line[1..];
    if text[0] == UNDERSCORE then Refused
    else if FirstWord(text) == [] then NoCommand
    else
      RestStartsWithSeparator(text);
      Runs(CHAT_PREFIX + FirstWord(text), AfterWord(text)[1..])
  }

  /** The word of a command ends before the newline at the latest. */
  lemma RestStartsWithSeparator(text: seq<byte>)
    requires |text| > 0 && text[|text| - 1] == NEWLINE
    ensures AfterWord(text) == [] ==> FirstWord(text) == []
    ensures AfterWord(text) != [] && FirstWord(text) != [] ==> IsSeparator(AfterWord(text)[0])
  {
    var a := NextStart(text, 0);
    EndMeaning(text, a);
    if a < |text| && NextEnd(text, a) == |text| {
      assert false;
    }
  }

  /** command_hook() */
  method CommandHook(line: seq<byte>) returns (command: Command)
    requires IsCommandLine(line)
    ensures command == CommandOf(line)
  {
    var request := line[1..];
    if request[0] == UNDERSCORE {
      return Refused;
    }
    var ctoken, rest := NextToken(request);
    if |ctoken| == 0 {
      return NoCommand;
    }
    RestStartsWithSeparator(request);
    return Runs(CHAT_PREFIX + ctoken, rest[1..]);
  }

  /** chat_hiddenjoin_plug(), on a fresh connection or on one that is logged in. */
  method HiddenJoinPlug(process: Process, t: nat, request: seq<byte>)
    requires process.Valid() && t in process.chats && process.chats[t].onResponse != LoginHandler
    modifies process
    ensures process.Valid() && ChatOk(old(process.State()), t)
    ensures var words := Words(request);
      var (room, name) := if |words| >= 3 then (words[1], words[2]) else ([], []);
      var e := HiddenJoin(old(process.State()), t, old(process.chats[t]), room, name);
      process.State() == e.after && process.sent == old(process.sent) + e.sent
  {
    ghost var w := process.State();
    var joined := GetRoomAndName(request);
    WordsHoldWords(request);
    assert ChatOk(w, t);
    var chat := process.chats[t].(loggedIn := true);
    match joined {
      case None =>
        PutKeepsMembership(w, t, chat);
        process.chats := process.chats[t := chat];
        assert process.sent + [] == process.sent;
      case Some(words) =>
        assert words.0 in Words(request) && words.1 in Words(request);
        PutKeepsMembership(w, t, chat.(name := words.1));
        process.chats := process.chats[t := chat.(name := words.1)];
        var ret := process.RoomJoin(t, words.0);
    }
  }

  /** CHAT_CONNECTED: no bit of the state is set. */
  predicate JustConnected(chat: Chat)
  {
    !chat.loggedIn && !chat.inRoom && !chat.quit && !chat.softQuit && !chat.zombie
  }

  /** chat_welcome_plug(): its assertion demands a connection that has just been made, which then may log in. */
  method WelcomePlug(process: Process, t: nat) returns (asserted: bool)
    requires process.Valid() && t in process.chats
    modifies process`chats
    ensures process.Valid() && asserted == JustConnected(old(process.chats[t]))
    ensures var chats := old(process.chats);
      process.chats == if asserted then chats[t := chats[t].(onResponse := LoginHandler)] else chats
  {
    var chat := process.chats[t];
    if chat.loggedIn || chat.inRoom || chat.quit || chat.softQuit || chat.zombie {
      return false;
    }
    assert ChatOk(process.State(), t);
    RecordKeepsMembership(process.State(), t, chat.(onResponse := LoginHandler));
    process.chats := process.chats[t := chat.(onResponse := LoginHandler)];
    return true;
  }

  // ---------------------------------------------------------------- which plugins a line calls

  lemma FirstWordIffAny(text: seq<byte>)
    ensures FirstWord(text) != [] <==> exists k :: 0 <= k < |text| && !IsSeparator(text[k])
  {
    var a := NextStart(text, 0);
    StartMeaning(text, 0);
    EndMeaning(text, a);
    if a < |text| {
      assert NextEnd(text, a) == NextEnd(text, a + 1);
    } else {
      assert forall k | 0 <= k < |text| :: IsSeparator(text[k]);
    }
  }

  /** The words of a command are its own word and those of the request. */
  lemma RequestWords(line: seq<byte>)
    requires IsCommandLine(line) && CommandOf(line).Runs?
    ensures Words(line[1..]) == [FirstWord(line[1..])] + Words(CommandOf(line).request)
  {
    var rest := AfterWord(line[1..]);
    RestStartsWithSeparator(line[1..]);
    assert rest == [rest[0]] + rest[1..];
    SeparatorIsSkipped(rest[0], rest[1..]);
  }

  /** A line is refused exactly when an underscore follows the slash; any other line calls the plugins under its first
      word, and its further words are those of the request; only a line without any word calls nothing. */
  lemma CommandMeans(line: seq<byte>)
    requires IsCommandLine(line)
    ensures |line| > 1 && (CommandOf(line) == Refused <==> line[1] == UNDERSCORE)
    ensures CommandOf(line) == NoCommand <==> forall k | 1 <= k < |line| :: IsSeparator(line[k])
    ensures CommandOf(line).Runs? ==>
      var words := Words(line[1..]);
      && |words| > 0 && CommandOf(line).space == Ascii("chat/") + words[0]
      && Words(CommandOf(line).request) == words[1..]
  {
    FirstWordIffAny(line[1..]);
    if CommandOf(line).Runs? {
      RequestWords(line);
    }
    assert forall k | 1 <= k < |line| :: line[k] == line[1..][k - 1];
    assert forall k | 0 <= k < |line[1..]| :: line[1..][k] == line[k + 1];
    assert line[1] == UNDERSCORE ==> !IsSeparator(line[1]);
  }

  /** An ordinary command with its text: the plugins under its name are called with the text and the newline. */
  lemma OrdinaryCommandRuns(word: seq<byte>, text: seq<byte>)
    requires IsWord(word) && word[0] != UNDERSCORE
    ensures IsCommandLine([SLASH] + word + [32] + text + [NEWLINE])
    ensures CommandOf([SLASH] + word + [32] + text + [NEWLINE]) == Runs(Ascii("chat/") + word, text + [NEWLINE])
  {
    var line := [SLASH] + word + [32] + text + [NEWLINE];
    assert line[1..] == word + ([32] + text + [NEWLINE]);
    WordComesOff(word, [32] + text + [NEWLINE]);
    assert ([32] + text + [NEWLINE])[1..] == text + [NEWLINE];
  }

  /** An ordinary command without a text is called with an empty request. */
  lemma BareCommandRuns(word: seq<byte>)
    requires IsWord(word) && word[0] != UNDERSCORE
    ensures IsCommandLine([SLASH] + word + [NEWLINE])
    ensures CommandOf([SLASH] + word + [NEWLINE]) == Runs(Ascii("chat/") + word, [])
  {
    var line := [SLASH] + word + [NEWLINE];
    assert line[1..] == word + [NEWLINE];
    WordComesOff(word, [NEWLINE]);
    assert [NEWLINE][1..] == [];
  }

  // ---------------------------------------------------------------- which lines reach a hidden plugin

  predicate HiddenPlace(space: seq<byte>)
  {
    |space| > |CHAT_PREFIX| && space[|CHAT_PREFIX|] == UNDERSCORE
  }

  lemma FirstWordAtFront(text: seq<byte>)
    requires |text| > 0 && !IsSeparator(text[0])
    ensures FirstWord(text) != [] && FirstWord(text)[0] == text[0]
  {
    assert NextStart(text, 0) == 0 && NextEnd(text, 0) == NextEnd(text, 1);
  }

  /** The check on the first byte lets a hidden command pass exactly when a separator stands before it. */
  lemma HiddenPlaceIff(line: seq<byte>)
    requires IsCommandLine(line)
    ensures CommandOf(line).Runs? && HiddenPlace(CommandOf(line).space)
      <==> IsSeparator(line[1]) && FirstWord(line[1..]) != [] && FirstWord(line[1..])[0] == UNDERSCORE
  {
    var text := line[1..];
    if !IsSeparator(text[0]) {
      FirstWordAtFront(text);
    }
    if FirstWord(text) != [] {
      var space := CHAT_PREFIX + FirstWord(text);
      assert space[|CHAT_PREFIX|] == FirstWord(text)[0];
    }
  }

  lemma PrefixedAlike(a: seq<byte>, b: seq<byte>)
    ensures CHAT_PREFIX + a == CHAT_PREFIX + b <==> a == b
  {
    if CHAT_PREFIX + a == CHAT_PREFIX + b {
      assert (CHAT_PREFIX + a)[|CHAT_PREFIX|..] == a && (CHAT_PREFIX + b)[|CHAT_PREFIX|..] == b;
    }
  }

  /** So a given hidden plugin is called exactly when a separator follows the slash and its name is the first word. */
  lemma HiddenPluginRunsIff(line: seq<byte>, word: seq<byte>)
    requires IsCommandLine(line) && IsWord(word) && word[0] == UNDERSCORE
    ensures CommandOf(line).Runs? && CommandOf(line).space == CHAT_PREFIX + word
      <==> IsSeparator(line[1]) && FirstWord(line[1..]) == word
  {
    HiddenPlaceIff(line);
    PrefixedAlike(FirstWord(line[1..]), word);
    assert (CHAT_PREFIX + word)[|CHAT_PREFIX|] == UNDERSCORE;
  }

  lemma PrefixSpelling()
    ensures CHAT_PREFIX == [99, 104, 97, 116, 47]
  {
  }

  lemma WordSpelling()
    ensures HIDDEN_WORD == [95, 104, 105, 100, 100, 101, 110, 106, 111, 105, 110]
    ensures IsWord(HIDDEN_WORD)
  {
  }

  lemma JoinSpelling()
    ensures HIDDEN_JOIN == [99, 104, 97, 116, 47] + [95, 104, 105, 100, 100, 101, 110, 106, 111, 105, 110]
  {
  }

  lemma HiddenSpelling()
    ensures HIDDEN_JOIN == CHAT_PREFIX + HIDDEN_WORD && IsWord(HIDDEN_WORD) && HIDDEN_WORD[0] == UNDERSCORE
  {
    PrefixSpelling();
    WordSpelling();
    JoinSpelling();
  }

  /** A line makes a logged-in client join the room under the name without asking if and only if a separator follows
      the slash and the words are the hidden command, anything, the room and the name, whatever follows. */
  lemma HiddenJoinRunsIff(line: seq<byte>, room: seq<byte>, name: seq<byte>)
    requires IsCommandLine(line)
    ensures CommandOf(line).Runs? && CommandOf(line).space == HIDDEN_JOIN
            && RoomAndName(CommandOf(line).request) == Some((room, name))
      <==> IsSeparator(line[1]) && |Words(line[1..])| >= 4 && Words(line[1..])[0] == HIDDEN_WORD
           && Words(line[1..])[2] == room && Words(line[1..])[3] == name
  {
    HiddenSpelling();
    HiddenPluginRunsIff(line, HIDDEN_WORD);
    if CommandOf(line).Runs? {
      RequestWords(line);
    } else {
      assert CommandOf(line) == NoCommand ==> Words(line[1..]) == [];
    }
  }

  // ---------------------------------------------------------------- such lines exist

  lemma {:induction false} JoinedLineComesBack(words: seq<seq<byte>>)
    requires forall w | w in words :: IsWord(w)
    ensures Words(Joined(words) + [NEWLINE]) == words
  {
    var end := [NEWLINE];
    if |words| == 0 {
      SeparatorIsSkipped(NEWLINE, []);
      assert [] + end == [NEWLINE] + [];
    } else if |words| == 1 {
      WordComesOff(words[0], end);
      SeparatorIsSkipped(NEWLINE, []);
      assert end == [NEWLINE] + [];
    } else {
      var tail := words[1..];
      JoinedLineComesBack(tail);
      assert Joined(words) + end == words[0] + ([32] + (Joined(tail) + end));
      WordComesOff(words[0], [32] + (Joined(tail) + end));
      SeparatorIsSkipped(32, Joined(tail) + end);
      assert words == [words[0]] + tail;
    }
  }

  /** Slash, space, and the words of a hidden join. */
  function HiddenLine(any: seq<byte>, room: seq<byte>, name: seq<byte>): seq<byte>
  {
    [SLASH] + ([32] + (Joined([HIDDEN_WORD, any, room, name]) + [NEWLINE]))
  }

  /** Every room and every name can be given in such a line; it is short enough to be read as long as
      the three words together have at most 237 bytes, so that names of 32 bytes and more are among them. */
  lemma HiddenLineRuns(any: seq<byte>, room: seq<byte>, name: seq<byte>)
    requires IsWord(any) && IsWord(room) && IsWord(name)
    ensures IsCommandLine(HiddenLine(any, room, name))
    ensures CommandOf(HiddenLine(any, room, name)).Runs? && CommandOf(HiddenLine(any, room, name)).space == HIDDEN_JOIN
    ensures RoomAndName(CommandOf(HiddenLine(any, room, name)).request) == Some((room, name))
    ensures |HiddenLine(any, room, name)| < MAX_CHAT_MSG_SIZE <==> |any| + |room| + |name| <= 237
  {
    var line, words := HiddenLine(any, room, name), [HIDDEN_WORD, any, room, name];
    HiddenSpelling();
    JoinedLineComesBack(words);
    assert line[1..] == [32] + (Joined(words) + [NEWLINE]);
    SeparatorIsSkipped(32, Joined(words) + [NEWLINE]);
    HiddenJoinRunsIff(line, room, name);
    assert words[1..] == [any, room, name] && words[1..][1..] == [room, name] && words[1..][1..][1..] == [name];
    assert |Joined([room, name])| == |room| + 1 + |name|;
  }
}
