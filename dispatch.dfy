/** Reply selection of `handle_incoming_user_message`: the ordered rule
    table `self.responses`, the handlers it names, the loop that keeps the
    LAST matching rule's reply, and the `response_threads` routing table. */
module Dispatch {
  import opened Types
  import opened Regex
  import opened Text
  import Location

  /** The reply when no rule matches. */
  const Default := "I'm afraid I don't understand."

  /** The bound methods the table refers to. */
  datatype Handler = RespondIp | HandleLocationUpdate | RespondLocation | RespondSyscond

  /** A rule's action: a literal reply, or a handler called with the lower-cased text. */
  datatype Action = Reply(text: string) | Call(handler: Handler)

  datatype Rule = Rule(pattern: string, action: Action)

  /** `self.responses`, in the dictionary's insertion order. */
  const Responses: seq<Rule> := [
    Rule("ip", Call(RespondIp)),
    Rule("what.* ip .*", Call(RespondIp)),
    Rule("what.*address.*", Call(RespondIp)),
    Rule("ping", Reply("Pong.")),
    Rule(".*good morning.*", Reply("Good morning!")),
    Rule(".*good afternoon.*", Reply("Good afternoon!")),
    Rule(".*good evening.*", Reply("Good evening!")),
    Rule(".*good night.*", Reply("Good night!")),
    Rule("thank.*", Reply("You're welcome.")),
    Rule("test", Reply("I am up and running.")),
    Rule("LocationUpdate .*", Call(HandleLocationUpdate)),
    Rule("locate", Call(RespondLocation)),
    Rule("syscond", Call(RespondSyscond))
  ]

  /** What the outside world answers while a message is handled: the clock
      (in microseconds), the local address the UDP socket reports, and the
      decoded output of `syscond status -n`; None where that call raises. */
  datatype Environment = Environment(now: int, ipAddress: Option<string>, syscondOutput: Option<string>)

  /** Everything a handler may look at: the location history and the environment. */
  datatype Context = Context(history: seq<Record>, env: Environment)

  /** The result of calling a handler: a reply, no reply (None), or an exception. */
  function Invoke(h: Handler, text: string, ctx: Context): Result<Option<string>> {
    match h
    case RespondIp =>
      (match ctx.env.ipAddress
       case None => Err(NoNetwork)
       case Some(address) => Ok(Some("I'm currently running on IP address " + address + ".")))
    case HandleLocationUpdate =>
      // it reads `message.data`, which a str does not have
      Err(HandlerGotText)
    case RespondLocation =>
      (match Location.RespondLocation(ctx.history, ctx.env.now)
       case Ok(s) => Ok(Some(s))
       case Err(e) => Err(e))
    case RespondSyscond =>
      (match ctx.env.syscondOutput
       case None => Err(SyscondFailed)
       case Some(output) => Ok(Some(output)))
  }

  function Perform(a: Action, text: string, ctx: Context): Result<Option<string>> {
    match a
    case Reply(s) => Ok(Some(s))
    case Call(h) => Invoke(h, text, ctx)
  }

  /** Rule i matches the text and its action raises. */
  predicate Fails(rules: seq<Rule>, text: string, ctx: Context, i: nat)
    requires i < |rules|
  {
    Matches(rules[i].pattern, text) && Perform(rules[i].action, text, ctx).Err?
  }

  /** The index of the last rule before n whose pattern matches the text. */
  function LastMatchBefore(rules: seq<Rule>, text: string, n: nat): (r: Option<nat>)
    requires n <= |rules|
    ensures r.Some? ==>
      r.value < n && Matches(rules[r.value].pattern, text)
      && forall j :: r.value < j < n ==> !Matches(rules[j].pattern, text)
    ensures r.None? ==> forall j :: 0 <= j < n ==> !Matches(rules[j].pattern, text)
  {
    if n == 0 then None
    else if Matches(rules[n - 1].pattern, text) then Some(n - 1)
    else LastMatchBefore(rules, text, n - 1)
  }

  /** The index of the first rule before n that matches and raises. */
  function FirstFailureBefore(rules: seq<Rule>, text: string, ctx: Context, n: nat): (r: Option<nat>)
    requires n <= |rules|
    ensures r.Some? ==>
      r.value < n && Fails(rules, text, ctx, r.value)
      && forall j :: 0 <= j < r.value ==> !Fails(rules, text, ctx, j)
    ensures r.None? ==> forall j :: 0 <= j < n ==> !Fails(rules, text, ctx, j)
  {
    if n == 0 then None
    else match FirstFailureBefore(rules, text, ctx, n - 1)
      case Some(i) => Some(i)
      case None => if Fails(rules, text, ctx, n - 1) then Some(n - 1) else None
  }

  /** What the reply selection yields for an already lower-cased text: the
      exception of the first matching rule that raises; otherwise the
      default reply when no rule matches; otherwise the result of the last
      matching rule. */
  function Outcome(rules: seq<Rule>, text: string, ctx: Context): (r: Result<Option<string>>)
    ensures r.Err? <==> exists i :: 0 <= i < |rules| && Fails(rules, text, ctx, i)
  {
    match FirstFailureBefore(rules, text, ctx, |rules|)
    case Some(i) => Err(Perform(rules[i].action, text, ctx).error)
    case None =>
      match LastMatchBefore(rules, text, |rules|)
      case None => Ok(Some(Default))
      case Some(k) =>
        assert !Fails(rules, text, ctx, k);
        Perform(rules[k].action, text, ctx)
  }

  /** Text that no rule matches gets exactly the default reply. */
  lemma NoMatchGivesDefault(rules: seq<Rule>, text: string, ctx: Context)
    requires forall j :: 0 <= j < |rules| ==> !Matches(rules[j].pattern, text)
    ensures Outcome(rules, text, ctx) == Ok(Some(Default))
  {
    assert FirstFailureBefore(rules, text, ctx, |rules|) == None;
  }

  /** When no matching rule raises, the reply is that of the LAST matching rule. */
  lemma LastMatchWins(rules: seq<Rule>, text: string, ctx: Context, k: nat)
    requires k < |rules| && Matches(rules[k].pattern, text)
    requires forall j :: k < j < |rules| ==> !Matches(rules[j].pattern, text)
    requires forall j :: 0 <= j < |rules| ==> !Fails(rules, text, ctx, j)
    ensures Outcome(rules, text, ctx) == Perform(rules[k].action, text, ctx)
  {
    assert FirstFailureBefore(rules, text, ctx, |rules|) == None;
    assert LastMatchBefore(rules, text, |rules|) == Some(k);
  }

  /** A raising rule ends selection with its exception, even when later rules match. */
  lemma FirstFailureWins(rules: seq<Rule>, text: string, ctx: Context, i: nat)
    requires i < |rules| && Fails(rules, text, ctx, i)
    requires forall j :: 0 <= j < i ==> !Fails(rules, text, ctx, j)
    ensures Outcome(rules, text, ctx) == Err(Perform(rules[i].action, text, ctx).error)
  {
    assert FirstFailureBefore(rules, text, ctx, |rules|) == Some(i);
  }

  /** An exception from reply selection is that of a matching rule's action. */
  lemma ErrorIsFirstFailure(rules: seq<Rule>, text: string, ctx: Context) returns (i: nat)
    requires Outcome(rules, text, ctx).Err?
    ensures i < |rules| && Fails(rules, text, ctx, i)
    ensures Outcome(rules, text, ctx) == Err(Perform(rules[i].action, text, ctx).error)
  {
    i := FirstFailureBefore(rules, text, ctx, |rules|).value;
  }

  /** The loop of lines 103-114: start from the default reply, and for each
      rule in order whose pattern matches, overwrite the reply with the
      rule's literal or with what its handler returns; a handler's
      exception ends the loop. */
  method SelectResponse(rules: seq<Rule>, text: string, ctx: Context) returns (r: Result<Option<string>>)
    ensures r == Outcome(rules, text, ctx)
  {
    var response: Option<string> := Some(Default);
    var i := 0;
    while i < |rules|
      invariant 0 <= i <= |rules|
      invariant FirstFailureBefore(rules, text, ctx, i) == None
      invariant LastMatchBefore(rules, text, i).None? ==> response == Some(Default)
      invariant LastMatchBefore(rules, text, i).Some? ==>
        Perform(rules[LastMatchBefore(rules, text, i).value].action, text, ctx) == Ok(response)
    {
      if Matches(rules[i].pattern, text) {
        var out := Perform(rules[i].action, text, ctx);
        if out.Err? {
          assert Fails(rules, text, ctx, i);
          assert FirstFailureBefore(rules, text, ctx, |rules|) == Some(i);
          return Err(out.error);
        }
        response := out.value;
      }
      i := i + 1;
    }
    r := Ok(response);
  }

  /** The "LocationUpdate .*" rule can never fire: its capital L is compared
      with a lower-cased text. */
  lemma LocationUpdateRuleIsDead(text: string)
    ensures Responses[10] == Rule("LocationUpdate .*", Call(HandleLocationUpdate))
    ensures !Matches(Responses[10].pattern, Lower(text))
  {
    UpperLiteralNeverMatchesLowerText("LocationUpdate .*", 0, Lower(text));
  }

  /** Whether one of the three rules answered by `respond_ip` matches the text. */
  predicate AsksIp(t: string) {
    Matches(Responses[0].pattern, t) || Matches(Responses[1].pattern, t) || Matches(Responses[2].pattern, t)
  }

  /** With the bot's own table, reply selection raises only in three ways:
      "locate" over an empty history, an IP question while the socket
      cannot connect, and "syscond" while the command cannot run. */
  lemma ResponsesFailures(text: string, ctx: Context)
    ensures var t := Lower(text);
      var o := Outcome(Responses, t, ctx);
      o.Err? ==>
        (o == Err(EmptyHistory) && ctx.history == [] && Matches("locate", t))
        || (o == Err(NoNetwork) && ctx.env.ipAddress == None && AsksIp(t))
        || (o == Err(SyscondFailed) && ctx.env.syscondOutput == None && Matches("syscond", t))
  {
    var t := Lower(text);
    if Outcome(Responses, t, ctx).Err? {
      var i := ErrorIsFirstFailure(Responses, t, ctx);
      RaisingActions(t, ctx, i);
      LocationUpdateRuleIsDead(text);
      assert i != 10;
    }
  }

  /** Which actions of the table can raise, and with what: the
      "LocationUpdate .*" handler always, "locate" over an empty history,
      the IP rules when the socket fails, "syscond" when the command fails. */
  lemma RaisingActions(t: string, ctx: Context, i: nat)
    requires i < |Responses| && Perform(Responses[i].action, t, ctx).Err?
    ensures i == 10 || (i == 11 && ctx.history == []) || (i <= 2 && ctx.env.ipAddress == None)
      || (i == 12 && ctx.env.syscondOutput == None)
    ensures var e := Perform(Responses[i].action, t, ctx).error;
      (i == 10 ==> e == HandlerGotText) && (i == 11 ==> e == EmptyHistory)
      && (i <= 2 ==> e == NoNetwork) && (i == 12 ==> e == SyscondFailed)
  {
  }

  /** With a text that has no upper-case letters, no rule of the table
      raises unless the text starts with "locate" and the history is empty,
      asks for the address while the socket fails, or starts with "syscond"
      while the command fails. */
  lemma NoRuleRaises(t: string, ctx: Context)
    requires NoUpper(t) && (ctx.history != [] || !Matches("locate", t))
    requires ctx.env.ipAddress.Some? || !AsksIp(t)
    requires ctx.env.syscondOutput.Some? || !Matches("syscond", t)
    ensures forall j :: 0 <= j < |Responses| ==> !Fails(Responses, t, ctx, j)
  {
    UpperLiteralNeverMatchesLowerText("LocationUpdate .*", 0, t);
    forall j | 0 <= j < |Responses| && Fails(Responses, t, ctx, j)
      ensures false
    {
      RaisingActions(t, ctx, j);
    }
  }

  /** "ip": the text starts with "ip". */
  lemma IpRule(t: string)
    ensures Matches(Responses[0].pattern, t) <==> StartsWith(t, "ip")
  {
    PlainPatternIsPrefixTest(Responses[0].pattern, t);
  }

  /** "ping": the text starts with "ping". */
  lemma PingRule(t: string)
    ensures Matches(Responses[3].pattern, t) <==> StartsWith(t, "ping")
  {
    PlainPatternIsPrefixTest(Responses[3].pattern, t);
  }

  /** "thank.*": the text starts with "thank". */
  lemma ThanksRule(t: string)
    ensures Matches(Responses[8].pattern, t) <==> StartsWith(t, "thank")
  {
    PlainThenDotStarIsPrefixTest(Responses[8].pattern, t);
  }

  /** "test": the text starts with "test". */
  lemma TestRule(t: string)
    ensures Matches(Responses[9].pattern, t) <==> StartsWith(t, "test")
  {
    PlainPatternIsPrefixTest(Responses[9].pattern, t);
  }

  /** "locate": the text starts with "locate". */
  lemma LocateRule(t: string)
    ensures Matches(Responses[11].pattern, t) <==> StartsWith(t, "locate")
  {
    PlainPatternIsPrefixTest(Responses[11].pattern, t);
  }

  /** "syscond": the text starts with "syscond". */
  lemma SyscondRule(t: string)
    ensures Matches(Responses[12].pattern, t) <==> StartsWith(t, "syscond")
  {
    PlainPatternIsPrefixTest(Responses[12].pattern, t);
  }

  /** "what.* ip .*": the text starts with "what" and " ip " follows on the first line. */
  lemma IpQuestionRule(t: string)
    ensures Matches(Responses[1].pattern, t) <==> StartsWith(t, "what") && OnFirstLine(t[4..], " ip ")
  {
    var p := Responses[1].pattern;
    var w := " ip ";
    assert p == "what" + ".*" + w + ".*";
    assert p[..4] == "what" && p[6..|p| - 2] == w;
    PrefixThenContainsTest(p, 4, t);
  }

  /** "what.*address.*": the text starts with "what" and "address" follows on the first line. */
  lemma AddressQuestionRule(t: string)
    ensures Matches(Responses[2].pattern, t) <==> StartsWith(t, "what") && OnFirstLine(t[4..], "address")
  {
    var p := Responses[2].pattern;
    var w := "address";
    assert p == "what" + ".*" + w + ".*";
    assert p[..4] == "what" && p[6..|p| - 2] == w;
    PrefixThenContainsTest(p, 4, t);
  }

  /** ".*good morning.*": the phrase occurs anywhere on the first line. */
  lemma GoodMorningRule(t: string)
    ensures Matches(Responses[4].pattern, t) <==> OnFirstLine(t, "good morning")
  {
    var p := Responses[4].pattern;
    var w := "good morning";
    assert p == ".*" + w + ".*";
    assert p[2..|p| - 2] == w;
    ContainsPatternTest(p, t);
  }

  /** ".*good afternoon.*": the phrase occurs anywhere on the first line. */
  lemma GoodAfternoonRule(t: string)
    ensures Matches(Responses[5].pattern, t) <==> OnFirstLine(t, "good afternoon")
  {
    var p := Responses[5].pattern;
    var w := "good afternoon";
    assert p == ".*" + w + ".*";
    assert p[2..|p| - 2] == w;
    ContainsPatternTest(p, t);
  }

  /** ".*good evening.*": the phrase occurs anywhere on the first line. */
  lemma GoodEveningRule(t: string)
    ensures Matches(Responses[6].pattern, t) <==> OnFirstLine(t, "good evening")
  {
    var p := Responses[6].pattern;
    var w := "good evening";
    assert p == ".*" + w + ".*";
    assert p[2..|p| - 2] == w;
    ContainsPatternTest(p, t);
  }

  /** ".*good night.*": the phrase occurs anywhere on the first line. */
  lemma GoodNightRule(t: string)
    ensures Matches(Responses[7].pattern, t) <==> OnFirstLine(t, "good night")
  {
    var p := Responses[7].pattern;
    var w := "good night";
    assert p == ".*" + w + ".*";
    assert p[2..|p| - 2] == w;
    ContainsPatternTest(p, t);
  }

  /** A text that starts with neither 'i' nor 'w' asks no IP question. */
  lemma NoIpRuleMatches(t: string)
    requires 0 < |t| && t[0] != 'i' && t[0] != 'w'
    ensures !AsksIp(t)
  {
    IpRule(t);
    IpQuestionRule(t);
    AddressQuestionRule(t);
  }

  /** A lower-case text that starts with none of 'i', 'w', 'l' and 's'
      matches none of the rules whose action can raise. */
  lemma OtherLettersMissRaisingRules(t: string)
    requires NoUpper(t) && 0 < |t| && t[0] !in {'i', 'w', 'l', 's'}
    ensures !AsksIp(t) && !Matches(Responses[10].pattern, t)
    ensures !Matches(Responses[11].pattern, t) && !Matches(Responses[12].pattern, t)
  {
    NoIpRuleMatches(t);
    UpperLiteralNeverMatchesLowerText(Responses[10].pattern, 0, t);
    LocateRule(t);
    SyscondRule(t);
  }

  /** A lower-case text that starts with none of 'i', 'w', 'l' and 's'
      cannot reach a rule that raises, whatever the history and the
      environment. */
  lemma NoRuleRaisesOnOtherLetters(t: string, ctx: Context)
    requires NoUpper(t) && 0 < |t| && t[0] !in {'i', 'w', 'l', 's'}
    ensures forall j :: 0 <= j < |Responses| ==> !Fails(Responses, t, ctx, j)
  {
    OtherLettersMissRaisingRules(t);
    forall j | 0 <= j < |Responses| && Fails(Responses, t, ctx, j)
      ensures false
    {
      RaisingActions(t, ctx, j);
    }
  }

  /** A lower-case text that starts with "locate" matches the locate rule
      and none of the other rules whose action can raise. */
  lemma LocateMissesOtherRaisingRules(t: string)
    requires NoUpper(t) && StartsWith(t, "locate")
    ensures !AsksIp(t) && !Matches(Responses[10].pattern, t)
    ensures Matches(Responses[11].pattern, t) && !Matches(Responses[12].pattern, t)
  {
    LocateRule(t);
    assert t[0] == 'l';
    NoIpRuleMatches(t);
    UpperLiteralNeverMatchesLowerText(Responses[10].pattern, 0, t);
    SyscondRule(t);
    assert t[..6] == "locate";
  }

  /** No rule after the ping rule matches "ping". */
  lemma PingMissesLaterRules()
    ensures forall j :: 3 < j < |Responses| ==> !Matches(Responses[j].pattern, "ping")
  {
    var t := "ping";
    forall j | 3 < j < |Responses|
      ensures !Matches(Responses[j].pattern, t)
    {
      if j == 4 {
        GoodMorningRule(t);
      } else if j == 5 {
        GoodAfternoonRule(t);
      } else if j == 6 {
        GoodEveningRule(t);
      } else if j == 7 {
        GoodNightRule(t);
      } else if j == 8 {
        ThanksRule(t);
      } else if j == 9 {
        TestRule(t);
      } else if j == 10 {
        UpperLiteralNeverMatchesLowerText(Responses[10].pattern, 0, t);
      } else if j == 11 {
        LocateRule(t);
      } else {
        SyscondRule(t);
      }
    }
  }

  /** "Ping" is answered "Pong.". */
  lemma PingGetsPong(ctx: Context)
    ensures Outcome(Responses, Lower("Ping"), ctx) == Ok(Some("Pong."))
  {
    assert Lower("Ping") == "ping";
    PingRule("ping");
    PingMissesLaterRules();
    NoRuleRaisesOnOtherLetters("ping", ctx);
    LastMatchWins(Responses, "ping", ctx, 3);
  }

  /** Any lower-case text that starts with "thank" is answered "You're
      welcome.", whatever greeting it also holds: no rule after "thank.*"
      can match it. */
  lemma ThanksIsAlwaysWelcome(t: string, ctx: Context)
    requires NoUpper(t) && StartsWith(t, "thank")
    ensures Outcome(Responses, t, ctx) == Ok(Some("You're welcome."))
  {
    ThanksRule(t);
    forall j | 8 < j < |Responses|
      ensures !Matches(Responses[j].pattern, t)
    {
      if j == 9 {
        TestRule(t);
        assert t[..4] == t[..5][..4];
      } else if j == 10 {
        UpperLiteralNeverMatchesLowerText(Responses[10].pattern, 0, t);
      } else if j == 11 {
        LocateRule(t);
      } else {
        SyscondRule(t);
      }
    }
    assert t[0] == 't';
    NoRuleRaisesOnOtherLetters(t, ctx);
    LastMatchWins(Responses, t, ctx, 8);
  }

  /** A thanks that also wishes good night ("thank you, good night")
      matches both ".*good night.*" and "thank.*"; the later of the two,
      "thank.*", gives the reply. */
  lemma ThanksOverridesGoodNight(t: string, ctx: Context)
    requires NoUpper(t) && StartsWith(t, "thank") && OnFirstLine(t, "good night")
    ensures Matches(Responses[7].pattern, t) && Matches(Responses[8].pattern, t)
    ensures Outcome(Responses, t, ctx) == Ok(Some("You're welcome."))
  {
    GoodNightRule(t);
    ThanksRule(t);
    ThanksIsAlwaysWelcome(t, ctx);
  }

  /** The bot's table never leaves the reply at None: every action that
      does not raise yields text, so a message that does not raise is
      always answered. */
  lemma ResponsesNeverSilent(t: string, ctx: Context)
    ensures Outcome(Responses, t, ctx).Ok? ==> Outcome(Responses, t, ctx).value.Some?
  {
    if FirstFailureBefore(Responses, t, ctx, |Responses|).None? {
      var k := LastMatchBefore(Responses, t, |Responses|);
      if k.Some? {
        var a := Responses[k.value].action;
        assert Perform(a, t, ctx).Ok? ==> Perform(a, t, ctx).value.Some?;
      }
    }
  }

  /** "locate" over an empty history raises the unpacking error, whatever follows it. */
  lemma LocateOnEmptyHistoryRaises(t: string, ctx: Context)
    requires NoUpper(t) && StartsWith(t, "locate") && ctx.history == []
    ensures Outcome(Responses, t, ctx) == Err(EmptyHistory)
  {
    LocateMissesOtherRaisingRules(t);
    forall j | 0 <= j < 11 && Fails(Responses, t, ctx, j)
      ensures false
    {
      RaisingActions(t, ctx, j);
    }
    FirstFailureWins(Responses, t, ctx, 11);
  }

  /** "locate" over a non-empty history raises nothing, whatever the environment. */
  lemma LocateWithHistoryRaisesNothing(t: string, ctx: Context)
    requires NoUpper(t) && StartsWith(t, "locate") && ctx.history != []
    ensures forall j :: 0 <= j < |Responses| ==> !Fails(Responses, t, ctx, j)
  {
    LocateMissesOtherRaisingRules(t);
    forall j | 0 <= j < |Responses| && Fails(Responses, t, ctx, j)
      ensures false
    {
      RaisingActions(t, ctx, j);
    }
  }

  /** "locate" over a non-empty history is answered with the report on its last row. */
  lemma LocateReportsLastRow(t: string, ctx: Context)
    requires NoUpper(t) && StartsWith(t, "locate") && ctx.history != []
    ensures Outcome(Responses, t, ctx) == Ok(Some(Location.RespondLocation(ctx.history, ctx.env.now).value))
  {
    LocateMissesOtherRaisingRules(t);
    LocateWithHistoryRaisesNothing(t, ctx);
    LastMatchWins(Responses, t, ctx, 11);
  }

  /** `self.response_threads`: where the reply to a user message from each thread goes. */
  const ResponseThreads: map<string, string> := map["TwitterStreams" := "TwitterRest", "Telegram" := "Telegram"]

  /** `self.response_threads[sender]`. */
  function ResponseThread(sender: string): (r: Result<string>)
    ensures r.Ok? <==> sender == "TwitterStreams" || sender == "Telegram"
    ensures sender == "TwitterStreams" ==> r == Ok("TwitterRest")
    ensures sender == "Telegram" ==> r == Ok("Telegram")
    ensures r.Err? ==> r.error == MissingKey(sender)
  {
    if sender in ResponseThreads then Ok(ResponseThreads[sender]) else Err(MissingKey(sender))
  }
}
