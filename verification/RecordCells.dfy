/** The cell values a record column can hold, and the two CASE expressions that rewrite a
    column when its field switches between single and multiple
    (core/collection_record_table_sync.go:237-341). */
module RecordCells {

  /** A stored text, classified by whether json_valid and json_type = 'array' hold of it. */
  datatype Text = Plain(chars: string) | ArrayText(items: seq<Json>)

  datatype Json =
    | JNull
    | JScalar(literal: string)   // numbers, booleans and objects: extracted as their own text
    | JString(content: Text)
    | JArray(items: seq<Json>)

  datatype Cell = Null | Value(text: Text)

  const EMPTY_TEXT := Value(Plain(""))
  const EMPTY_ARRAY := Value(ArrayText([]))

  /** What json_extract yields for one array element. */
  function Extracted(j: Json): Cell {
    match j
    case JNull => Null
    case JScalar(s) => Value(Plain(s))
    case JString(t) => Value(t)
    case JArray(items) => Value(ArrayText(items))
  }

  /** Single to multiple: empty becomes [], an array text is kept, anything else is wrapped. */
  function ToMultiple(c: Cell): Cell {
    match c
    case Null => EMPTY_ARRAY
    case Value(Plain(s)) =>
      if s == "" then EMPTY_ARRAY else Value(ArrayText([JString(Plain(s))]))
    case Value(ArrayText(_)) => c
  }

  /** Multiple to single: keep the last element of an array text, and any other text as it is. */
  function ToSingle(c: Cell): Cell {
    match c
    case Null => EMPTY_TEXT
    case Value(Plain(s)) => c
    case Value(ArrayText(items)) =>
      if items == [] then EMPTY_TEXT
      else if Extracted(items[|items| - 1]) == Null then EMPTY_TEXT
      else Extracted(items[|items| - 1])
  }

  /** What a cell becomes when its column goes from single to multiple. */
  predicate Wrapped(was: Cell, now: Cell) {
    && (was == Null || was == EMPTY_TEXT ==> now == Value(ArrayText([])))
    && (was.Value? && was.text.ArrayText? ==> now == was)
    && (was.Value? && was.text.Plain? && was.text.chars != "" ==> now == Value(ArrayText([JString(was.text)])))
  }

  /** What it becomes on the way from multiple to single: of an array only the last element
      stays, whatever is before it. */
  ghost predicate LastKept(was: Cell, now: Cell) {
    && (was == Null || was == Value(ArrayText([])) ==> now == Value(Plain("")))
    && (was.Value? && was.text.Plain? ==> now == was)
    && forall others: seq<Json>, last: Json :: was == Value(ArrayText(others + [last])) ==> IsElement(last, now)
  }

  /** The cell an array element becomes: a string its content, null the empty text, anything else
      the text it is written as. */
  predicate IsElement(j: Json, now: Cell) {
    && (j.JNull? ==> now == Value(Plain("")))
    && (j.JScalar? ==> now == Value(Plain(j.literal)))
    && (j.JString? ==> now == Value(j.content))
    && (j.JArray? ==> now == Value(ArrayText(j.items)))
  }

  lemma ToMultipleWraps(c: Cell)
    ensures Wrapped(c, ToMultiple(c))
  {
  }

  lemma ToSingleKeepsLast(c: Cell)
    ensures LastKept(c, ToSingle(c))
  {
    forall others: seq<Json>, last: Json | c == Value(ArrayText(others + [last])) ensures IsElement(last, ToSingle(c)) {
      assert (others + [last])[|others|] == last;
    }
  }

  /** Going to multiple and back is the identity on exactly the texts that are not
      themselves a JSON array. */
  lemma SingleMultipleSingle(c: Cell)
    ensures ToSingle(ToMultiple(c)) == c <==> c.Value? && c.text.Plain?
  {
    match c
    case Null =>
    case Value(Plain(s)) =>
    case Value(ArrayText(items)) =>
      if items != [] {
        // the extracted element is structurally smaller, so it cannot be the array again
        var last := items[|items| - 1];
        assert last < c.text;
        match last
        case JNull =>
        case JScalar(_) =>
        case JString(t) => assert t < last;
        case JArray(es) => assert es == items ==> last < last;
      }
  }

  /** Going to single and back loses every element but the last: it is the identity on exactly
      the empty array and the one-element arrays of a non-empty plain text. */
  lemma MultipleSingleMultiple(c: Cell)
    ensures ToMultiple(ToSingle(c)) == c <==>
            c == EMPTY_ARRAY || exists s: string :: s != "" && c == Value(ArrayText([JString(Plain(s))]))
  {
  }
}
