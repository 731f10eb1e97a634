/** Values shared by every part of the bot: the message envelope exchanged
    between threads, the payload values it carries, the location-history
    record, and the errors the Python code raises. */
module Types {

  datatype Option<+T> = None | Some(value: T)

  /** What a Python call either returns or raises. */
  datatype Result<+T> = Ok(value: T) | Err(error: Error)

  /** The exceptions the modelled code can raise. */
  datatype Error =
    | MissingKey(key: string)   // KeyError: a payload field or a routing-table entry is absent
    | NotText(key: string)      // AttributeError: a payload field that must be a str is not one
    | EmptyHistory              // TypeError: unpacking the None that an empty LOCATION_HISTORY yields
    | HandlerGotText            // AttributeError: a message handler was called with a str
    | NoNetwork                 // OSError (socket.gaierror among them): the UDP socket could not connect
    | SyscondFailed             // FileNotFoundError or UnicodeDecodeError: `syscond status -n` could not run or printed non-UTF-8

  /** A value in a message payload: the adapters put strings and booleans there. */
  datatype Value = Str(s: string) | Flag(b: bool)

  /** Python truthiness, as `if arrived:` uses it. */
  predicate Truthy(v: Value) {
    match v
    case Str(s) => s != ""
    case Flag(b) => b
  }

  /** The message kinds the main loop knows, and any other code. */
  datatype MsgType = ThreadStarted | UserMessage | LocationUpdate | OtherType(code: int)

  /** An envelope passed between threads: sender thread name, kind and payload dictionary. */
  datatype Message = Message(sender: string, msgType: MsgType, data: map<string, Value>)

  /** A message handed to a thread's queue. */
  datatype Outgoing = Outgoing(thread: string, message: Message)

  datatype Event = Arrived | Left

  /** The text stored in the `event` column. */
  function EventName(e: Event): string {
    match e
    case Arrived => "arrived"
    case Left => "left"
  }

  /** One row of LOCATION_HISTORY: (user, location, event, time); time in whole microseconds. */
  datatype Record = Record(user: string, location: Value, event: Event, time: int)
}
