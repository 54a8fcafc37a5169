/**
 * What the inbound-message callback `on_message` of dashboard.py does with a
 * message: pick the value token out of the payload, convert it, and build
 * the record to insert, or stop at the `IndexError` / `ValueError` it catches.
 *
 * The timestamp is an opaque value of type `T` supplied by the caller (the
 * source reads the wall clock). Python's `float()` is the parameter
 * `toFloat`, a partial conversion into an opaque number type `N`: `None`
 * stands for the `ValueError` it raises.
 */
module Messages {
  import opened Wrappers
  import opened PyText

  const TopicTemperature: string := "iot/temperature"
  const TopicSmoke: string := "iot/smoke"

  const KeyTimestamp: string := "timestamp"
  const KeyTemperature: string := "temperature"
  const KeySmoke: string := "smoke"

  /** A value held under a record key: the ingestion time or a converted reading. */
  datatype Value<T, N> = Time(time: T) | Number(number: N)

  /** The dictionary `data` that the callback inserts. */
  type Record<T, N> = map<string, Value<T, N>>

  /** The two exceptions the callback catches. */
  datatype ParseError = IndexError | ValueError

  /** The record key a topic's reading is stored under; other topics store none. */
  function ValueKey(topic: string): Option<string>
  {
    if topic == TopicTemperature then Some(KeyTemperature)
    else if topic == TopicSmoke then Some(KeySmoke)
    else None
  }

  /** The keys a record inserted for `topic` carries. */
  function RecordKeys(topic: string): set<string>
  {
    match ValueKey(topic)
    case Some(k) => {KeyTimestamp, k}
    case None => {KeyTimestamp}
  }

  /**
   * `message.split(":")[1].strip().split()[0]`: both subscripts raise
   * `IndexError` when the list is too short.
   */
  function ValueToken(message: string): Result<string, ParseError>
  {
    var fields := Split(message, ':');
    if |fields| < 2 then Failure(IndexError)
    else
      var words := Words(Strip(fields[1]));
      if words == [] then Failure(IndexError) else Success(words[0])
  }

  /** `float(...)` applied to the value token. */
  function ParseValue<N>(message: string, toFloat: string -> Option<N>): Result<N, ParseError>
  {
    match ValueToken(message)
    case Failure(e) => Failure(e)
    case Success(token) =>
      match toFloat(token)
      case None => Failure(ValueError)
      case Some(v) => Success(v)
  }

  /**
   * The outcome of `on_message` for one message: the record it inserts, or
   * the exception that makes it return before inserting. Only the two
   * sensor topics parse the payload; any other topic inserts a record that
   * holds the timestamp alone.
   */
  function Handle<T, N>(topic: string, message: string, now: T, toFloat: string -> Option<N>)
    : (r: Result<Record<T, N>, ParseError>)
    ensures r.Success? ==> r.value.Keys == RecordKeys(topic) && r.value[KeyTimestamp] == Time(now)
    ensures r.Success? ==> !(KeyTemperature in r.value && KeySmoke in r.value)
    ensures r.Success? && ValueKey(topic).Some? ==>
              && ValueToken(message).Success?
              && toFloat(ValueToken(message).value).Some?
              && r.value[ValueKey(topic).value] == Number(toFloat(ValueToken(message).value).value)
    ensures r == Failure(IndexError) <==> ValueKey(topic).Some? && ValueToken(message).Failure?
    ensures r == Failure(ValueError) <==>
              && ValueKey(topic).Some?
              && ValueToken(message).Success?
              && toFloat(ValueToken(message).value).None?
  {
    var data: Record<T, N> := map[KeyTimestamp := Time(now)];
    match ValueKey(topic)
    case None => Success(data)
    case Some(key) =>
      match ParseValue(message, toFloat)
      case Failure(e) => Failure(e)
      case Success(v) => Success(data[key := Number(v)])
  }

  /** On a topic other than the two sensor topics the payload is never looked at. */
  lemma OtherTopicIgnoresPayload<T, N>(topic: string, m1: string, m2: string, now: T,
                                       f1: string -> Option<N>, f2: string -> Option<N>)
    requires topic != TopicTemperature && topic != TopicSmoke
    ensures Handle(topic, m1, now, f1) == Handle(topic, m2, now, f2)
    ensures Handle(topic, m1, now, f1) == Success(map[KeyTimestamp := Time(now)])
  {
  }

  /** A payload without a colon is rejected: `split(":")[1]` raises `IndexError`. */
  lemma NoColonRejected(message: string)
    requires ':' !in message
    ensures ValueToken(message) == Failure(IndexError)
  {
    SplitHasSecond(message, ':');
  }

  /**
   * A payload whose text between the first and the second colon is empty or
   * blank is rejected: `split()[0]` raises `IndexError`.
   */
  lemma BlankFieldRejected(pre: string, field: string, rest: string)
    requires ':' !in pre && ':' !in field && (rest == [] || rest[0] == ':')
    requires AllSpace(field)
    ensures ValueToken(pre + [':'] + field + rest) == Failure(IndexError)
  {
    SecondPiece(pre, field, rest, ':');
    StripBlank(field);
    WordsSpec(Strip(field));
  }

  /**
   * The value token is the first whitespace-delimited word of the text
   * between the first and the second colon; what follows the second colon
   * is ignored.
   */
  lemma TokenIsFirstWord(pre: string, lead: string, word: string, tail: string, rest: string)
    requires ':' !in pre && ':' !in lead + word + tail && (rest == [] || rest[0] == ':')
    requires AllSpace(lead) && word != [] && NoSpace(word)
    requires tail == [] || IsSpace(tail[0])
    ensures ValueToken(pre + [':'] + (lead + word + tail) + rest) == Success(word)
  {
    var field := lead + word + tail;
    SecondPiece(pre, field, rest, ':');
    FirstWordIs(lead, word, tail);
    WordsSpec(field);
    FirstWordOfStrip(field);
  }

  /** Every payload falls under one of the three lemmas above. */
  lemma TokenCases(message: string)
    ensures ValueToken(message).Success? <==>
              |Split(message, ':')| >= 2 && !AllSpace(Split(message, ':')[1])
    ensures ValueToken(message).Success? ==>
              var token := ValueToken(message).value;
              token != [] && NoSpace(token) && ':' !in token
  {
    SplitHasSecond(message, ':');
    if ':' in message {
      var field := Split(message, ':')[1];
      SplitPiecesFree(message, ':');
      StripBlank(field);
      WordsSpec(Strip(field));
      if !AllSpace(field) {
        FirstWordOfStrip(field);
        var t := TrimLeft(field);
        TrimLeftSpec(field);
        TakeWordSpec(t);
        var token := TakeWord(t);
        assert forall i :: 0 <= i < |token| ==> token[i] == field[|field| - |t| + i];
      }
    }
  }
}
