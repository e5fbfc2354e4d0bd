/**
 * The decisions the call inspector makes when it shows a recorded call:
 * which metadata keys are binary, how a `grpc-status` value is annotated
 * with its status-code name, how each timeline event is labelled and what
 * its context menu offers, and which rows the statistics panel shows.
 */
module CallView {
  import opened Wrappers
  import opened KotlinText

  // Metadata tables.

  /**
   * A metadata key is binary when its lower-case form ends in "-bin" (the
   * binary-header rule of the Custom-Metadata section of the gRPC over
   * HTTP/2 protocol).
   */
  predicate IsBinaryKey(key: string)
    ensures IsBinaryKey(key) ==> |key| >= 4 && key[|key| - 4] == '-'
  {
    EndsWith(Lowercase(key), "-bin")
  }

  /** The test is case-insensitive: exactly the keys ending in '-' and then b, i, n in either case. */
  lemma BinaryKeyCharacterised(key: string)
    ensures IsBinaryKey(key) <==>
              |key| >= 4 && key[|key| - 4] == '-' && key[|key| - 3] in "bB"
              && key[|key| - 2] in "iI" && key[|key| - 1] in "nN"
  {
    var low := Lowercase(key);
    if |key| >= 4 {
      var n := |key|;
      assert low[n - 4..] == [low[n - 4], low[n - 3], low[n - 2], low[n - 1]];
      assert low[n - 4..] == "-bin" <==>
               low[n - 4] == '-' && low[n - 3] == 'b' && low[n - 2] == 'i' && low[n - 1] == 'n';
    }
  }

  /**
   * One row of a metadata table: a binary entry carries the bytes it is
   * decoded from (as a status message); any other entry carries its text.
   */
  datatype MetadataRow =
    | BinaryRow(key: string, bytes: seq<bv8>)
    | AsciiRow(key: string, text: string)

  /**
   * The row shown for one metadata key. A binary key is read with the
   * binary lookup and any other key with the text lookup; a key with no
   * value shows as empty.
   */
  function Row(key: string, ascii: string -> Option<string>, binary: string -> Option<seq<bv8>>)
    : (row: MetadataRow)
    ensures row.key == key
    ensures row.BinaryRow? <==> IsBinaryKey(key)
    ensures row.BinaryRow? ==> row.bytes == (if binary(key).Some? then binary(key).value else [])
    ensures row.AsciiRow? ==> row.text == (if ascii(key).Some? then ascii(key).value else "")
  {
    if IsBinaryKey(key) then BinaryRow(key, binary(key).GetOr([]))
    else AsciiRow(key, ascii(key).GetOr(""))
  }

  /**
   * The rows shown for the given metadata keys: one row per key, in their
   * order. The two lookups stand for reading a key with the binary and
   * with the ASCII marshaller.
   */
  function MetadataRows(keys: seq<string>, ascii: string -> Option<string>, binary: string -> Option<seq<bv8>>)
    : (rows: seq<MetadataRow>)
    ensures |rows| == |keys|
    ensures forall i :: 0 <= i < |keys| ==> rows[i] == Row(keys[i], ascii, binary)
  {
    if keys == [] then []
    else [Row(keys[0], ascii, binary)] + MetadataRows(keys[1..], ascii, binary)
  }

  // Status codes.

  /** The canonical gRPC status codes. */
  datatype Code =
    | Ok | Cancelled | Unknown | InvalidArgument | DeadlineExceeded | NotFound
    | AlreadyExists | PermissionDenied | ResourceExhausted | FailedPrecondition
    | Aborted | OutOfRange | Unimplemented | Internal | Unavailable | DataLoss
    | Unauthenticated

  /** The number of each code, as the gRPC status-code table assigns them. */
  function CodeNumber(c: Code): (n: nat)
    ensures n <= 16
  {
    match c
    case Ok => 0
    case Cancelled => 1
    case Unknown => 2
    case InvalidArgument => 3
    case DeadlineExceeded => 4
    case NotFound => 5
    case AlreadyExists => 6
    case PermissionDenied => 7
    case ResourceExhausted => 8
    case FailedPrecondition => 9
    case Aborted => 10
    case OutOfRange => 11
    case Unimplemented => 12
    case Internal => 13
    case Unavailable => 14
    case DataLoss => 15
    case Unauthenticated => 16
  }

  /** `Code.fromNumber`: the code with the given number, if there is one. */
  function CodeFromNumber(n: int): (c: Option<Code>)
    ensures c.Some? <==> 0 <= n <= 16
    ensures c.Some? ==> CodeNumber(c.value) == n
  {
    match n
    case 0 => Some(Ok)
    case 1 => Some(Cancelled)
    case 2 => Some(Unknown)
    case 3 => Some(InvalidArgument)
    case 4 => Some(DeadlineExceeded)
    case 5 => Some(NotFound)
    case 6 => Some(AlreadyExists)
    case 7 => Some(PermissionDenied)
    case 8 => Some(ResourceExhausted)
    case 9 => Some(FailedPrecondition)
    case 10 => Some(Aborted)
    case 11 => Some(OutOfRange)
    case 12 => Some(Unimplemented)
    case 13 => Some(Internal)
    case 14 => Some(Unavailable)
    case 15 => Some(DataLoss)
    case 16 => Some(Unauthenticated)
    case _ => None
  }

  /** Every code is found again from its number, so no two codes share one. */
  lemma CodeNumberRoundTrip(c: Code)
    ensures CodeFromNumber(CodeNumber(c)) == Some(c)
  {
  }

  /**
   * `code.name`: the canonical name of each code, in upper case with
   * underscores between words; it starts and ends with a letter.
   */
  function CodeName(c: Code): (name: string)
    ensures |name| >= 2 && 'A' <= name[0] <= 'Z' && 'A' <= name[|name| - 1] <= 'Z'
  {
    match c
    case Ok => "OK"
    case Cancelled => "CANCELLED"
    case Unknown => "UNKNOWN"
    case InvalidArgument => "INVALID_ARGUMENT"
    case DeadlineExceeded => "DEADLINE_EXCEEDED"
    case NotFound => "NOT_FOUND"
    case AlreadyExists => "ALREADY_EXISTS"
    case PermissionDenied => "PERMISSION_DENIED"
    case ResourceExhausted => "RESOURCE_EXHAUSTED"
    case FailedPrecondition => "FAILED_PRECONDITION"
    case Aborted => "ABORTED"
    case OutOfRange => "OUT_OF_RANGE"
    case Unimplemented => "UNIMPLEMENTED"
    case Internal => "INTERNAL"
    case Unavailable => "UNAVAILABLE"
    case DataLoss => "DATA_LOSS"
    case Unauthenticated => "UNAUTHENTICATED"
  }

  /** Upper-case letters and underscores only. */
  predicate UpperSnake(name: string) {
    forall i :: 0 <= i < |name| ==> 'A' <= name[i] <= 'Z' || name[i] == '_'
  }

  // The seventeen names, checked a few at a time.

  lemma UpperSnakeNames1()
    ensures UpperSnake("OK") && UpperSnake("CANCELLED") && UpperSnake("UNKNOWN") && UpperSnake("INVALID_ARGUMENT")
  {
  }

  lemma UpperSnakeNames2()
    ensures UpperSnake("DEADLINE_EXCEEDED") && UpperSnake("NOT_FOUND") && UpperSnake("ALREADY_EXISTS") && UpperSnake("PERMISSION_DENIED")
  {
  }

  lemma UpperSnakeNames3()
    ensures UpperSnake("RESOURCE_EXHAUSTED") && UpperSnake("FAILED_PRECONDITION") && UpperSnake("ABORTED") && UpperSnake("OUT_OF_RANGE")
  {
  }

  lemma UpperSnakeNames4()
    ensures UpperSnake("UNIMPLEMENTED") && UpperSnake("INTERNAL") && UpperSnake("UNAVAILABLE") && UpperSnake("DATA_LOSS") && UpperSnake("UNAUTHENTICATED")
  {
  }

  /** Every character of a code's name is an upper-case letter or an underscore. */
  lemma CodeNameUpperCase(c: Code)
    ensures UpperSnake(CodeName(c))
  {
    UpperSnakeNames1();
    UpperSnakeNames2();
    UpperSnakeNames3();
    UpperSnakeNames4();
  }

  /** Distinct codes have distinct names, so the label names the code annotated. */
  lemma CodeNamesDistinct(a: Code, b: Code)
    ensures CodeName(a) == CodeName(b) <==> a == b
  {
  }

  /**
   * What follows a metadata value: nothing, the name of a status code, or
   * the failure of `toInt()` on a `grpc-status` value that is not a number.
   */
  datatype StatusLabel = NoLabel | CodeLabel(code: Code) | NotANumber

  /**
   * The annotation of a metadata item. Only a key that is "grpc-status" in
   * lower case is annotated; its value must be an integer, and a number
   * that is a known code is annotated with that code, any other number
   * with nothing.
   */
  function StatusAnnotation(key: string, value: string): (r: StatusLabel)
    ensures Lowercase(key) != "grpc-status" ==> r == NoLabel
    ensures Lowercase(key) == "grpc-status" ==> (r == NotANumber <==> ParseInt(value).None?)
    ensures r.CodeLabel? ==> ParseInt(value).Some? && ParseInt(value).value == CodeNumber(r.code)
    ensures Lowercase(key) == "grpc-status" && ParseInt(value).Some? ==>
              (r.CodeLabel? <==> 0 <= ParseInt(value).value <= 16)
  {
    if Lowercase(key) != "grpc-status" then NoLabel
    else
      match ParseInt(value)
      case None => NotANumber
      case Some(n) =>
        match CodeFromNumber(n)
        case Some(c) => CodeLabel(c)
        case None => NoLabel
  }

  /** A `grpc-status` item whose value is the number of a code is annotated with that code. */
  lemma StatusOfRenderedCode(key: string, c: Code)
    requires Lowercase(key) == "grpc-status"
    ensures StatusAnnotation(key, IntToString(CodeNumber(c))) == CodeLabel(c)
  {
    var n := CodeNumber(c);
    ParseIntRoundTrip(n);
    CodeNumberRoundTrip(c);
    assert ParseInt(IntToString(n)) == Some(n) && CodeFromNumber(n) == Some(c);
  }

  /**
   * The context menu of a metadata item: the whole "key: value" line, the
   * key alone and the value alone.
   */
  function ItemMenu(key: string, value: string): (items: seq<MenuItem>)
    ensures |items| == 3
    ensures forall i, j :: 0 <= i < j < |items| ==> items[i].caption != items[j].caption
    ensures forall i :: 0 <= i < |items| ==> items[i].copies.Text?
    ensures items[0].copies.text == key + ": " + value
    ensures items[1].copies.text == key && items[2].copies.text == value
  {
    [MenuItem("Copy", Text(key + ": " + value)),
     MenuItem("Copy Key", Text(key)),
     MenuItem("Copy Value", Text(value))]
  }

  // Timeline events.

  /** The events of a call's timeline; only the start event's authority and method name are used here. */
  datatype CallEvent = Start(authority: string, methodName: string) | Accept | Input | Output | Close

  predicate SameVariant(a: CallEvent, b: CallEvent) {
    || (a.Start? && b.Start?) || (a.Accept? && b.Accept?) || (a.Input? && b.Input?)
    || (a.Output? && b.Output?) || (a.Close? && b.Close?)
  }

  /** The text of an event's timeline row. */
  function EventLabel(e: CallEvent): (caption: string)
    ensures caption != []
    ensures caption == "Start" <==> e.Start?
    ensures caption == "Closed" <==> e.Close?
  {
    match e
    case Start(_, _) => "Start"
    case Accept => "Server Accepted"
    case Input => "Client Messaging"
    case Output => "Server Messaging"
    case Close => "Closed"
  }

  /** The icon of an event's timeline row: a resource under "icons/". */
  function EventIcon(e: CallEvent): (icon: string)
    ensures |icon| > 10 && icon[..6] == "icons/"
  {
    match e
    case Start(_, _) => "icons/connector.svg"
    case Accept => "icons/reviewAccepted.svg"
    case Input => "icons/showWriteAccess.svg"
    case Output => "icons/showReadAccess.svg"
    case Close => "icons/reviewRejected.svg"
  }

  /** Two events get the same label exactly when they are the same kind of event. */
  lemma EventLabelsDistinguishVariants(a: CallEvent, b: CallEvent)
    ensures EventLabel(a) == EventLabel(b) <==> SameVariant(a, b)
  {
    if !SameVariant(a, b) {
      assert EventLabel(a)[0] != EventLabel(b)[0] || |EventLabel(a)| != |EventLabel(b)|;
    }
  }

  /** Two events get the same icon exactly when they are the same kind of event. */
  lemma EventIconsDistinguishVariants(a: CallEvent, b: CallEvent)
    ensures EventIcon(a) == EventIcon(b) <==> SameVariant(a, b)
  {
    if !SameVariant(a, b) {
      assert EventIcon(a)[6] != EventIcon(b)[6] || EventIcon(a)[10] != EventIcon(b)[10]
             || EventIcon(a)[12] != EventIcon(b)[12];
    }
  }

  /** What a context-menu entry puts on the clipboard. */
  datatype Clip = Text(text: string) | HeadersJson | TrailersJson | MessageJson

  datatype MenuItem = MenuItem(caption: string, copies: Clip)

  /**
   * The context menu of an event's row: a start event offers its
   * authority, its method name and its headers; every other event offers
   * one entry, for its headers, its trailers or its message.
   */
  function EventMenu(e: CallEvent): (items: seq<MenuItem>)
    ensures |items| == if e.Start? then 3 else 1
    ensures forall i, j :: 0 <= i < j < |items| ==> items[i].caption != items[j].caption
    ensures forall i :: 0 <= i < |items| && items[i].copies.Text? ==>
              e.Start? && items[i].copies.text in {e.authority, e.methodName}
    ensures e.Start? ==> Copies(items) == [Text(e.authority), Text(e.methodName), HeadersJson]
    ensures e.Accept? ==> items[0].copies == HeadersJson
    ensures e.Close? ==> items[0].copies == TrailersJson
    ensures e.Input? || e.Output? ==> items[0].copies == MessageJson
  {
    match e
    case Start(authority, methodName) =>
      [MenuItem("Copy Authority", Text(authority)),
       MenuItem("Copy Method Name", Text(methodName)),
       MenuItem("Copy Headers", HeadersJson)]
    case Accept => [MenuItem("Copy Headers", HeadersJson)]
    case Close => [MenuItem("Copy Trails", TrailersJson)]
    case Input => [MenuItem("Copy Message", MessageJson)]
    case Output => [MenuItem("Copy Message", MessageJson)]
  }

  /** What each entry of a menu copies, in the menu's order. */
  function Copies(items: seq<MenuItem>): (clips: seq<Clip>)
    ensures |clips| == |items|
    ensures forall i :: 0 <= i < |items| ==> clips[i] == items[i].copies
  {
    if items == [] then [] else [items[0].copies] + Copies(items[1..])
  }

  // The statistics panel.

  /**
   * The rows of the statistics panel: the call's id, authority, method and
   * start time, then its end time exactly when the call has been closed
   * (`endTime` is the close event's time, if there is a close event).
   */
  function StatisticsRows(id: string, authority: string, methodName: string, startTime: string,
                          endTime: Option<string>): (rows: seq<(string, string)>)
    ensures |rows| == if endTime.Some? then 5 else 4
    ensures (exists i :: 0 <= i < |rows| && rows[i].0 == "End time") <==> endTime.Some?
    ensures endTime.Some? ==> rows[4] == ("End time", endTime.value)
    ensures rows[0] == ("ID", id) && rows[1] == ("Authority", authority)
            && rows[2] == ("Method", methodName) && rows[3] == ("Start time", startTime)
  {
    var head := [("ID", id), ("Authority", authority), ("Method", methodName), ("Start time", startTime)];
    assert forall i :: 0 <= i < 4 ==> head[i].0 != "End time";
    match endTime
    case None => head
    case Some(t) =>
      var rows := head + [("End time", t)];
      assert rows[4].0 == "End time";
      rows
  }
}
