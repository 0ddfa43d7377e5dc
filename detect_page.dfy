/** The detection page of the web client: a start/stop button that opens
    and drops the websocket, a unit toggle, and the handler that folds the
    server's messages into the latest distance, the last ten readings and
    the latest image. */
module DetectPage {
  import opened Wrappers

  const SERVER_URL: string := "ws://localhost:8000/ws"
  /** How many readings the history keeps. */
  const HISTORY_LIMIT: nat := 10
  const IMAGE_PREFIX: string := "data:image/jpeg;base64,"

  datatype DistanceUnit = Metres | Centimetres

  /** One row of the history: when it arrived (an opaque timestamp) and the
      distance. */
  datatype Entry = Entry(time: string, distance: real)

  /** An open websocket, by the address it was opened on. */
  datatype Socket = Socket(url: string)

  /** The parsed JSON of one incoming message: each field as present or
      absent. */
  datatype Payload = Payload(message: Option<string>, error: Option<string>, distance: Option<real>, image: Option<string>)

  /** The component's state; `socket` is `socketRef.current`. */
  datatype View = View(isDetecting: bool, distance: real, unit: DistanceUnit,
                       history: seq<Entry>, image: Option<string>, socket: Option<Socket>)

  /** JavaScript truthiness of an optional string field. */
  predicate Truthy(s: Option<string>)
  {
    s.Some? && s.value != ""
  }

  /** `s.slice(-HISTORY_LIMIT)`: the last `HISTORY_LIMIT` entries, all of
      them when there are fewer. */
  function LastEntries(s: seq<Entry>): (r: seq<Entry>)
    ensures |r| == if |s| <= HISTORY_LIMIT then |s| else HISTORY_LIMIT
    ensures r == s[|s| - |r|..]
  {
    if |s| <= HISTORY_LIMIT then s else s[|s| - HISTORY_LIMIT..]
  }

  /** `[...prev, e].slice(-HISTORY_LIMIT)`. */
  function Appended(history: seq<Entry>, e: Entry): (r: seq<Entry>)
    ensures 1 <= |r| <= HISTORY_LIMIT && r[|r| - 1] == e
    ensures |history| < HISTORY_LIMIT ==> r == history + [e]
    ensures |history| >= HISTORY_LIMIT ==> r == history[|history| - HISTORY_LIMIT + 1..] + [e]
  {
    LastEntries(history + [e])
  }

  /** Keeping only the last ten after every append keeps the last ten of
      everything appended. */
  lemma AppendedWindow(s: seq<Entry>, e: Entry)
    ensures Appended(LastEntries(s), e) == LastEntries(s + [e])
  {
  }

  /** The state on first render. */
  const INITIAL: View := View(false, 0.0, Metres, [], None, None)

  /** `onmessage`: an info message is only logged; otherwise an error stops
      detection; otherwise a message with a distance updates the distance
      and the history when the distance is not negative, and the image
      whenever one is present. */
  function Received(v: View, data: Payload, now: string): (r: View)
    ensures r.unit == v.unit && r.socket == v.socket
    ensures Truthy(data.message) ==> r == v
    ensures !Truthy(data.message) && Truthy(data.error) ==> r == v.(isDetecting := false)
    ensures !Truthy(data.message) && !Truthy(data.error) ==> r.isDetecting == v.isDetecting
    ensures IsReading(data) && Truthy(data.image) ==> r.image == Some(IMAGE_PREFIX + data.image.value)
    ensures IsReading(data) && !Truthy(data.image) ==> r.image == v.image
    ensures |v.history| <= HISTORY_LIMIT ==> |r.history| <= HISTORY_LIMIT
  {
    if Truthy(data.message) then v
    else if Truthy(data.error) then v.(isDetecting := false)
    else if data.distance.Some? then
      var measured :=
        if data.distance.value >= 0.0 then
          v.(distance := data.distance.value, history := Appended(v.history, Entry(now, data.distance.value)))
        else v;
      if Truthy(data.image) then measured.(image := Some(IMAGE_PREFIX + data.image.value)) else measured
    else v
  }

  /** A distance message as the server sends it: no info, no error. */
  predicate IsReading(data: Payload)
  {
    !Truthy(data.message) && !Truthy(data.error) && data.distance.Some?
  }

  /** The -1 sentinel touches neither the distance nor the history, but its
      image is still shown. */
  lemma SentinelKeepsReadings(v: View, data: Payload, now: string)
    requires IsReading(data) && data.distance.value < 0.0
    ensures Received(v, data, now).distance == v.distance
    ensures Received(v, data, now).history == v.history
    ensures Truthy(data.image) ==> Received(v, data, now).image == Some(IMAGE_PREFIX + data.image.value)
  {
  }

  /** A non-negative reading becomes the shown distance and the newest
      history entry, and the history stays within ten entries, dropping
      only the oldest one. */
  lemma ReadingRecorded(v: View, data: Payload, now: string)
    requires IsReading(data) && data.distance.value >= 0.0
    ensures var r := Received(v, data, now);
      && r.distance == data.distance.value
      && |r.history| <= HISTORY_LIMIT
      && r.history[|r.history| - 1] == Entry(now, data.distance.value)
      && r.history == LastEntries(v.history + [Entry(now, data.distance.value)])
  {
  }

  /** Messages without message, error or distance, such as calibration
      progress, change nothing. */
  lemma ProgressIgnored(v: View, data: Payload, now: string)
    requires !Truthy(data.message) && !Truthy(data.error) && data.distance.None?
    ensures Received(v, data, now) == v
  {
  }

  /** The readings a sequence of messages adds to the history. */
  function Accepted(events: seq<(Payload, string)>): seq<Entry>
  {
    if events == [] then []
    else
      var (data, now) := events[|events| - 1];
      Accepted(events[..|events| - 1])
      + if Accepts(data) then [Entry(now, data.distance.value)] else []
  }

  /** The state after handling `events` in order. */
  function Replay(v: View, events: seq<(Payload, string)>): View
  {
    if events == [] then v
    else
      var (data, now) := events[|events| - 1];
      Received(Replay(v, events[..|events| - 1]), data, now)
  }

  /** What one message does to the history. */
  lemma ReceivedHistory(v: View, data: Payload, now: string)
    ensures Received(v, data, now).history ==
      if Accepts(data)
      then Appended(v.history, Entry(now, data.distance.value))
      else v.history
  {
  }

  /** Whether a message adds an entry to the history. */
  predicate Accepts(data: Payload)
  {
    IsReading(data) && data.distance.value >= 0.0
  }

  /** What the last of a nonempty sequence of messages does to the history
      and to the accepted readings. */
  lemma ReplayLast(v: View, events: seq<(Payload, string)>)
    requires events != []
    ensures var init, data, now := events[..|events| - 1], events[|events| - 1].0, events[|events| - 1].1;
      && Replay(v, events).history ==
           (if Accepts(data) then Appended(Replay(v, init).history, Entry(now, data.distance.value))
            else Replay(v, init).history)
      && Accepted(events) ==
           Accepted(init) + if Accepts(data) then [Entry(now, data.distance.value)] else []
  {
    ReceivedHistory(Replay(v, events[..|events| - 1]), events[|events| - 1].0, events[|events| - 1].1);
  }

  /** However many messages arrive, the history is the last ten accepted
      readings, in arrival order. */
  lemma {:induction false} ReplayKeepsLastTen(v: View, events: seq<(Payload, string)>)
    requires |v.history| <= HISTORY_LIMIT
    ensures Replay(v, events).history == LastEntries(v.history + Accepted(events))
  {
    if events == [] {
      assert v.history + [] == v.history;
    } else {
      var init, data, now := events[..|events| - 1], events[|events| - 1].0, events[|events| - 1].1;
      ReplayKeepsLastTen(v, init);
      ReplayLast(v, events);
      var before := v.history + Accepted(init);
      if Accepts(data) {
        var e := Entry(now, data.distance.value);
        AppendedWindow(before, e);
        assert v.history + Accepted(events) == before + [e];
      } else {
        assert v.history + Accepted(events) == before;
      }
    }
  }

  /** `toggleDetection`: stopping drops the socket, starting opens one. */
  function Toggled(v: View): (r: View)
    ensures r.isDetecting == !v.isDetecting
    ensures r.distance == v.distance && r.unit == v.unit && r.history == v.history && r.image == v.image
    ensures r.isDetecting <==> r.socket == Some(Socket(SERVER_URL))
  {
    if v.isDetecting then v.(isDetecting := false, socket := None)
    else v.(isDetecting := true, socket := Some(Socket(SERVER_URL)))
  }

  /** Start then stop returns an idle page to where it was. */
  lemma StartStopRestores(v: View)
    requires !v.isDetecting && v.socket.None?
    ensures Toggled(Toggled(v)) == v
  {
  }

  /** `toggleUnit`. */
  function OtherUnit(u: DistanceUnit): (r: DistanceUnit)
    ensures r != u
  {
    if u == Metres then Centimetres else Metres
  }

  function UnitToggled(v: View): (r: View)
    ensures r.unit != v.unit && r.(unit := v.unit) == v
  {
    v.(unit := OtherUnit(v.unit))
  }

  /** Toggling the unit twice changes nothing. */
  lemma UnitToggleInvolutive(v: View)
    ensures UnitToggled(UnitToggled(v)) == v
  {
  }

  /** The component, with its state in fields that the handlers update. */
  class Page {
    var isDetecting: bool
    var distance: real
    var unit: DistanceUnit
    var history: seq<Entry>
    var image: Option<string>
    var socket: Option<Socket>

    function State(): View
      reads this
    {
      View(isDetecting, distance, unit, history, image, socket)
    }

    /** The history never holds more than ten readings. */
    ghost predicate Valid()
      reads this
    {
      |history| <= HISTORY_LIMIT
    }

    constructor ()
      ensures Valid() && State() == INITIAL
    {
      isDetecting, distance, unit := false, 0.0, Metres;
      history, image, socket := [], None, None;
    }

    method OnMessage(data: Payload, now: string)
      requires Valid()
      modifies this
      ensures Valid() && State() == Received(old(State()), data, now)
    {
      if Truthy(data.message) {
        return;
      } else if Truthy(data.error) {
        isDetecting := false;
      } else if data.distance.Some? {
        var d := data.distance.value;
        if d >= 0.0 {
          distance := d;
          history := LastEntries(history + [Entry(now, d)]);
        }
        if Truthy(data.image) {
          image := Some(IMAGE_PREFIX + data.image.value);
        }
      }
    }

    method ToggleDetection()
      requires Valid()
      modifies this
      ensures Valid() && State() == Toggled(old(State()))
    {
      if isDetecting {
        if socket.Some? {
          socket := None;
        }
      } else {
        socket := Some(Socket(SERVER_URL));
      }
      isDetecting := !isDetecting;
    }

    method ToggleUnit()
      requires Valid()
      modifies this
      ensures Valid() && State() == UnitToggled(old(State()))
    {
      unit := if unit == Metres then Centimetres else Metres;
    }
  }
}
