/** An event is one line of text whose payload always ends with a newline;
    the constructor adds one only when the line lacks it. The same
    normalisation is applied by the readers before they write a line. */
module Events {

  predicate EndsWithNewline(s: string) {
    |s| > 0 && s[|s| - 1] == '\n'
  }

  /** The line with exactly one newline added when it does not already end
      with one: the shortest newline-terminated string that starts with s. */
  function Terminate(s: string): (t: string)
    ensures EndsWithNewline(t)
    ensures |s| <= |t| && t[..|s|] == s
    ensures |t| == if EndsWithNewline(s) then |s| else |s| + 1
  {
    if EndsWithNewline(s) then s else s + "\n"
  }

  datatype EventRecord = Event(payload: string)

  /** An event as the initialiser leaves it: its payload always ends with a
      newline, since every event is built by NewEvent. */
  type Event = e: EventRecord | EndsWithNewline(e.payload) witness Event("\n")

  /** `Event(payload)`: the payload, newline-terminated. */
  function NewEvent(payload: string): (e: Event)
    ensures EndsWithNewline(e.payload)
    ensures |payload| <= |e.payload| && e.payload[..|payload|] == payload
    ensures EndsWithNewline(payload) <==> e.payload == payload
  {
    Event(Terminate(payload))
  }

  /** `str(event)`: the payload, which ends with a newline. */
  function ToString(e: Event): (s: string)
    ensures EndsWithNewline(s)
  {
    e.payload
  }

  /** A line that already ends with a newline is kept as it is, so it is
      never terminated twice; any other line gains exactly one character,
      the newline. */
  lemma NeverDoubleTerminated(payload: string)
    ensures EndsWithNewline(payload) ==> NewEvent(payload).payload == payload
    ensures !EndsWithNewline(payload) ==>
      NewEvent(payload).payload == payload + "\n" && |NewEvent(payload).payload| == |payload| + 1
  {
    var p := NewEvent(payload).payload;
    if !EndsWithNewline(payload) {
      assert p == p[..|payload|] + [p[|payload|]];
    }
  }

  /** Building an event from an event's payload changes nothing. */
  lemma NormalisationIdempotent(payload: string)
    ensures NewEvent(NewEvent(payload).payload) == NewEvent(payload)
    ensures Terminate(Terminate(payload)) == Terminate(payload)
  {
  }

  /** No newline-terminated string that starts with the input is shorter
      than the normalised payload. */
  lemma TerminateIsShortest(s: string, q: string)
    requires EndsWithNewline(q) && |s| <= |q| && q[..|s|] == s
    ensures |Terminate(s)| <= |q|
  {
  }

  /** `str(Event(payload))` is the newline-terminated payload. */
  lemma StrOfNewEvent(payload: string)
    ensures EndsWithNewline(ToString(NewEvent(payload)))
    ensures ToString(NewEvent(payload)) == Terminate(payload)
  {
  }
}
