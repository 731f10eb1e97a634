/** The `EnforsBot` object: its location fields, the location history, and
    the messages it hands to other threads; with one iteration of
    `main_loop` and the two handlers it dispatches to. */
module Bot {
  import opened Types
  import opened Regex
  import opened Text
  import Location
  import Dispatch

  /** What one iteration of `main_loop` does with a message, by its kind. */
  datatype Kind = LogStart | AnswerUser | UpdateLocation | Unsupported

  /** The `if`/`elif` chain of lines 70-80. */
  function Classify(t: MsgType): (k: Kind)
    ensures k == LogStart <==> t == ThreadStarted
    ensures k == AnswerUser <==> t == UserMessage
    ensures k == UpdateLocation <==> t == LocationUpdate
    ensures k == Unsupported <==> t.OtherType?
  {
    match t
    case ThreadStarted => LogStart
    case UserMessage => AnswerUser
    case LocationUpdate => UpdateLocation
    case OtherType(_) => Unsupported
  }

  /** Everything one message can change: the location state and the
      messages sent so far, oldest first. */
  datatype Snapshot = Snapshot(loc: Location.LocState, outbox: seq<Outgoing>)

  /** `handle_incoming_location_update` on values: the KeyError of either
      payload lookup, or the updated location state. */
  function LocationStep(s: Location.LocState, data: map<string, Value>, now: int): Result<Location.LocState> {
    if "location" !in data then Err(MissingKey("location"))
    else if "arrived" !in data then Err(MissingKey("arrived"))
    else Ok(Location.Update(s, data["location"], Truthy(data["arrived"]), now))
  }

  /** The reply message of lines 117-120. */
  function ReplyMessage(thread: string, user: Value, reply: string): Outgoing {
    Outgoing(thread, Message("Main", UserMessage, map["user" := user, "text" := Str(reply)]))
  }

  /** `handle_incoming_user_message` on values: its exception, or the
      messages it sends (none when the reply is None). */
  function UserStep(history: seq<Record>, data: map<string, Value>, thread: string, env: Dispatch.Environment): Result<seq<Outgoing>> {
    if "user" !in data then Err(MissingKey("user"))
    else if "text" !in data then Err(MissingKey("text"))
    else if !data["text"].Str? then Err(NotText("text"))
    else
      match Dispatch.Outcome(Dispatch.Responses, Lower(data["text"].s), Dispatch.Context(history, env))
      case Err(e) => Err(e)
      case Ok(None) => Ok([])
      case Ok(Some(reply)) => Ok([ReplyMessage(thread, data["user"], reply)])
  }

  /** One iteration of `main_loop`: the new snapshot, or the exception that
      ends the loop; an exception is raised before anything changes. */
  function Next(s: Snapshot, msg: Message, env: Dispatch.Environment): Result<Snapshot> {
    match Classify(msg.msgType)
    case LogStart => Ok(s)
    case Unsupported => Ok(s)
    case AnswerUser =>
      (match Dispatch.ResponseThread(msg.sender)
       case Err(e) => Err(e)
       case Ok(thread) =>
         (match UserStep(s.loc.history, msg.data, thread, env)
          case Err(e) => Err(e)
          case Ok(out) => Ok(Snapshot(s.loc, s.outbox + out))))
    case UpdateLocation =>
      (match LocationStep(s.loc, msg.data, env.now)
       case Err(e) => Err(e)
       case Ok(l) => Ok(Snapshot(l, s.outbox)))
  }

  /** `Consistent` (arrived only right after an accepted arrival) survives every message. */
  lemma NextKeepsConsistent(s: Snapshot, msg: Message, env: Dispatch.Environment)
    requires Location.Consistent(s.loc)
    ensures Next(s, msg, env).Ok? ==> Location.Consistent(Next(s, msg, env).value.loc)
  {
    if msg.msgType == LocationUpdate && LocationStep(s.loc, msg.data, env.now).Ok? {
      var data := msg.data;
      var l := Location.Update(s.loc, data["location"], Truthy(data["arrived"]), env.now);
      assert Location.Consistent(l);
    }
  }

  /** The history and the outbox only grow, by at most one entry each, and
      a message never touches both. */
  lemma NextAppendsOnly(s: Snapshot, msg: Message, env: Dispatch.Environment)
    ensures Next(s, msg, env).Ok? ==>
      var n := Next(s, msg, env).value;
      |s.loc.history| <= |n.loc.history| <= |s.loc.history| + 1
      && n.loc.history[..|s.loc.history|] == s.loc.history
      && |s.outbox| <= |n.outbox| <= |s.outbox| + 1
      && n.outbox[..|s.outbox|] == s.outbox
      && (n.loc == s.loc || n.outbox == s.outbox)
  {
    match Classify(msg.msgType)
    case AnswerUser =>
      if Next(s, msg, env).Ok? {
        var n := Next(s, msg, env).value;
        assert n.outbox[..|s.outbox|] == s.outbox;
      }
    case _ =>
  }

  /** Only location updates move the location state; only user messages
      send anything; start notices and unknown kinds change nothing. */
  lemma NextSeparatesKinds(s: Snapshot, msg: Message, env: Dispatch.Environment)
    ensures Next(s, msg, env).Ok? && msg.msgType != LocationUpdate ==> Next(s, msg, env).value.loc == s.loc
    ensures Next(s, msg, env).Ok? && msg.msgType != UserMessage ==> Next(s, msg, env).value.outbox == s.outbox
    ensures msg.msgType == ThreadStarted || msg.msgType.OtherType? ==> Next(s, msg, env) == Ok(s)
  {
    match Classify(msg.msgType)
    case AnswerUser =>
    case UpdateLocation =>
    case _ =>
  }

  /** A user message from a thread missing from `response_threads` raises
      KeyError before the message is looked at. */
  lemma UnknownSenderRaises(s: Snapshot, msg: Message, env: Dispatch.Environment)
    requires msg.msgType == UserMessage && msg.sender !in Dispatch.ResponseThreads
    ensures Next(s, msg, env) == Err(MissingKey(msg.sender))
  {
    var r := Dispatch.ResponseThread(msg.sender);
    assert r == Err(MissingKey(msg.sender));
  }

  /** A user message raises only for an unknown sender, a missing field, a
      non-text `text`, "locate" over an empty history, or a handler whose
      socket or subprocess fails. */
  lemma UserMessageErrors(s: Snapshot, msg: Message, env: Dispatch.Environment)
    requires msg.msgType == UserMessage && Next(s, msg, env).Err?
    ensures var e := Next(s, msg, env).error;
      e == MissingKey(msg.sender) || e == MissingKey("user") || e == MissingKey("text")
      || e == NotText("text") || (e == EmptyHistory && s.loc.history == [])
      || (e == NoNetwork && env.ipAddress == None) || (e == SyscondFailed && env.syscondOutput == None)
  {
    if msg.sender in Dispatch.ResponseThreads && "user" in msg.data && "text" in msg.data && msg.data["text"].Str? {
      var ctx := Dispatch.Context(s.loc.history, env);
      Dispatch.ResponsesFailures(msg.data["text"].s, ctx);
    }
  }

  /** A well-formed user message from a known thread, with a history or
      without "locate", and with the socket or subprocess its rule may call
      succeeding, is answered with exactly one message: from "Main",
      to the sender's response thread, for the same user, holding the reply
      that rule selection gives for the lower-cased text. */
  lemma UserMessageAnswered(s: Snapshot, msg: Message, env: Dispatch.Environment)
    requires msg.msgType == UserMessage && msg.sender in Dispatch.ResponseThreads
    requires "user" in msg.data && "text" in msg.data && msg.data["text"].Str?
    requires s.loc.history != [] || !Matches("locate", Lower(msg.data["text"].s))
    requires env.ipAddress.Some? || !Dispatch.AsksIp(Lower(msg.data["text"].s))
    requires env.syscondOutput.Some? || !Matches("syscond", Lower(msg.data["text"].s))
    ensures var t := Lower(msg.data["text"].s);
      var o := Dispatch.Outcome(Dispatch.Responses, t, Dispatch.Context(s.loc.history, env));
      o.Ok? && o.value.Some?
      && Next(s, msg, env) == Ok(Snapshot(s.loc, s.outbox
           + [ReplyMessage(Dispatch.ResponseThreads[msg.sender], msg.data["user"], o.value.value)]))
  {
    var t := Lower(msg.data["text"].s);
    var ctx := Dispatch.Context(s.loc.history, env);
    Dispatch.NoRuleRaises(t, ctx);
    Dispatch.ResponsesNeverSilent(t, ctx);
  }

  /** User x says "Ping" on Telegram: one message from "Main" carrying
      "Pong." for x is handed to the Telegram thread, and nothing else changes. */
  lemma TelegramPingIsAnswered(s: Snapshot, env: Dispatch.Environment)
    ensures Next(s, Message("Telegram", UserMessage, map["user" := Str("x"), "text" := Str("Ping")]), env)
      == Ok(Snapshot(s.loc, s.outbox
           + [Outgoing("Telegram", Message("Main", UserMessage, map["user" := Str("x"), "text" := Str("Pong.")]))]))
  {
    var data := map["user" := Str("x"), "text" := Str("Ping")];
    assert "user" in data && "text" in data && data["text"] == Str("Ping") && data["user"] == Str("x");
    assert Dispatch.ResponseThread("Telegram") == Ok("Telegram");
    Dispatch.PingGetsPong(Dispatch.Context(s.loc.history, env));
  }

  /** The bot. The SQLite table LOCATION_HISTORY is the in-memory `history`;
      `send_message` appends to `outbox`. */
  class EnforsBot {
    var location: Option<Value>
    var arrived: bool
    var history: seq<Record>
    var outbox: seq<Outgoing>

    function State(): Location.LocState
      reads this
    {
      Location.LocState(location, arrived, history)
    }

    function Snap(): Snapshot
      reads this
    {
      Snapshot(State(), outbox)
    }

    /** `__init__` over a LOCATION_HISTORY table that already holds `persisted`. */
    constructor (persisted: seq<Record>)
      ensures State() == Location.Initial(persisted) && outbox == []
    {
      location := None;
      arrived := false;
      history := persisted;
      outbox := [];
    }

    /** `handle_incoming_location_update` (lines 133-168). */
    method HandleIncomingLocationUpdate(msg: Message, now: int) returns (r: Result<()>)
      modifies this
      ensures outbox == old(outbox)
      ensures r.Ok? <==> LocationStep(old(State()), msg.data, now).Ok?
      ensures r.Ok? ==> State() == LocationStep(old(State()), msg.data, now).value
      ensures r.Err? ==> r.error == LocationStep(old(State()), msg.data, now).error && State() == old(State())
      ensures Location.Consistent(old(State())) ==> Location.Consistent(State())
    {
      if "location" !in msg.data {
        return Err(MissingKey("location"));
      }
      var loc := msg.data["location"];
      if "arrived" !in msg.data {
        return Err(MissingKey("arrived"));
      }
      var arrivedNow := msg.data["arrived"];
      if Truthy(arrivedNow) {
        location := Some(loc);
        arrived := true;
        history := history + [Record(Location.User, loc, Arrived, now)];
      } else if !arrived || Some(loc) == location {
        history := history + [Record(Location.User, loc, Left, now)];
        arrived := false;
      }
      r := Ok(());
    }

    /** `handle_incoming_user_message` (lines 97-121): reply selection over the
        lower-cased text, then at most one message to `responseThread`. */
    method HandleIncomingUserMessage(msg: Message, responseThread: string, env: Dispatch.Environment)
      returns (r: Result<()>)
      modifies this
      ensures State() == old(State())
      ensures r.Ok? <==> UserStep(old(history), msg.data, responseThread, env).Ok?
      ensures r.Ok? ==> outbox == old(outbox) + UserStep(old(history), msg.data, responseThread, env).value
      ensures r.Err? ==> r.error == UserStep(old(history), msg.data, responseThread, env).error && outbox == old(outbox)
    {
      if "user" !in msg.data {
        return Err(MissingKey("user"));
      }
      var user := msg.data["user"];
      if "text" !in msg.data {
        return Err(MissingKey("text"));
      }
      var text := msg.data["text"];
      if !text.Str? {
        return Err(NotText("text"));
      }
      var lowered := Lower(text.s);
      var response := Dispatch.SelectResponse(Dispatch.Responses, lowered, Dispatch.Context(history, env));
      if response.Err? {
        return Err(response.error);
      }
      if response.value.Some? {
        outbox := outbox + [ReplyMessage(responseThread, user, response.value.value)];
      }
      r := Ok(());
    }

    /** One iteration of `main_loop` (lines 70-80) for a received message. */
    method Step(msg: Message, env: Dispatch.Environment) returns (r: Result<()>)
      modifies this
      ensures r.Ok? <==> Next(old(Snap()), msg, env).Ok?
      ensures r.Ok? ==> Snap() == Next(old(Snap()), msg, env).value
      ensures r.Err? ==> r.error == Next(old(Snap()), msg, env).error && Snap() == old(Snap())
    {
      match Classify(msg.msgType)
      case LogStart =>
        r := Ok(());
      case Unsupported =>
        r := Ok(());
      case AnswerUser =>
        var thread := Dispatch.ResponseThread(msg.sender);
        if thread.Err? {
          return Err(thread.error);
        }
        r := HandleIncomingUserMessage(msg, thread.value, env);
      case UpdateLocation =>
        r := HandleIncomingLocationUpdate(msg, env.now);
    }
  }
}
