/** Steps 10 and 11 of the chat handler: when the visible text still holds
    `#FORWARD_TELEGRAM#`, its first occurrence is removed, the memory is parsed
    as JSON and rendered into the fixed "Booking Summary" message, and the
    message is sent to the Telegram chat. The cleaned text is the response
    whether the parse and the send succeed or not. */
module Handoff {
  import opened Wrappers
  import opened Strings
  import opened DataBlock

  /** One field of the parsed memory as a template slot sees it. FalsyValue
      is an absent field or a falsy value (null, false, 0, NaN, the empty
      string); Truthy(text) is any other value with the text it turns into
      inside a template literal: a non-empty string is itself, `true` is
      "true", and an empty array is truthy yet shows as "". */
  datatype JsonField = FalsyValue | Truthy(text: string)

  /** The fields of the parsed memory that the summary reads. */
  datatype Booking = Booking(
    name: JsonField,
    email: JsonField,
    phone: JsonField,
    location: JsonField,
    artist: JsonField,
    priceRange: JsonField,
    description: JsonField,
    date: JsonField)

  /** `v || fallback` inside a template slot: the fallback replaces a falsy
      value only, so a truthy value with empty text shows nothing. */
  function OrElse(v: JsonField, fallback: string): (shown: string)
    ensures v.FalsyValue? ==> shown == fallback
    ensures v.Truthy? ==> shown == v.text
  {
    match v
    case FalsyValue => fallback
    case Truthy(text) => text
  }

  const NotSpecified := "(not specified)"

  /** The lines of the summary template: it opens and closes with a newline,
      hence the empty first and last lines. */
  function SummaryLines(b: Booking): (ls: seq<string>)
    ensures |ls| == 11 && ls[0] == "" && ls[10] == ""
    ensures FieldsOneLine(b) ==> forall i :: 0 <= i < |ls| ==> NoNewline(ls[i])
  {
    var ls := [ "",
      "Booking Summary:",
      "Name: " + OrElse(b.name, ""),
      "Email: " + OrElse(b.email, ""),
      "Phone: " + OrElse(b.phone, ""),
      "Location: " + OrElse(b.location, ""),
      "Artist: " + OrElse(b.artist, ""),
      "Price Range: " + OrElse(b.priceRange, ""),
      "Description: " + OrElse(b.description, ""),
      "Appointment Date: " + OrElse(b.date, NotSpecified),
      "" ];
    if FieldsOneLine(b) then
      HeadingsOneLine();
      LabelledLine("Name: ", b.name, "");
      LabelledLine("Email: ", b.email, "");
      LabelledLine("Phone: ", b.phone, "");
      LabelledLine("Location: ", b.location, "");
      LabelledLine("Artist: ", b.artist, "");
      LabelledLine("Price Range: ", b.priceRange, "");
      LabelledLine("Description: ", b.description, "");
      LabelledLine("Appointment Date: ", b.date, NotSpecified);
      ls
    else ls
  }

  /** Lines joined with "\n" (a multi-line template literal). */
  function JoinLines(ls: seq<string>): string
    requires |ls| > 0
    decreases |ls|
  {
    if |ls| == 1 then ls[0] else ls[0] + "\n" + JoinLines(ls[1..])
  }

  /** `s.split("\n")`. */
  function SplitLines(s: string): (ls: seq<string>)
    ensures |ls| > 0
    decreases |s|
  {
    match IndexOf(s, "\n")
    case None => [s]
    case Some(i) => [s[..i]] + SplitLines(s[i + 1..])
  }

  /** The message relayed to Telegram. */
  function Summary(b: Booking): string {
    JoinLines(SummaryLines(b))
  }

  predicate NoNewline(l: string) {
    forall k :: 0 <= k < |l| ==> l[k] != '\n'
  }

  /** The fixed text of the template holds no newline of its own. */
  lemma HeadingsOneLine()
    ensures NoNewline("Booking Summary:") && NoNewline(NotSpecified)
    ensures NoNewline("Name: ") && NoNewline("Email: ") && NoNewline("Phone: ")
    ensures NoNewline("Location: ") && NoNewline("Artist: ") && NoNewline("Price Range: ")
    ensures NoNewline("Description: ") && NoNewline("Appointment Date: ")
  {
  }

  /** Splitting undoes joining, as long as no line holds a newline of its own. */
  lemma {:induction false} SplitJoin(ls: seq<string>)
    requires |ls| > 0 && forall i :: 0 <= i < |ls| ==> NoNewline(ls[i])
    ensures SplitLines(JoinLines(ls)) == ls
    decreases |ls|
  {
    if |ls| == 1 {
      forall k | 0 <= k <= |ls[0]| ensures !IsPrefixAt(ls[0], k, "\n") {
        if k < |ls[0]| {
          assert ls[0][k..k + 1][0] == ls[0][k] != '\n';
        }
      }
    } else {
      var rest := JoinLines(ls[1..]);
      var s := ls[0] + "\n" + rest;
      assert IsPrefixAt(s, |ls[0]|, "\n");
      forall k | 0 <= k < |ls[0]| ensures !IsPrefixAt(s, k, "\n") {
        assert s[k] == ls[0][k];
      }
      IndexOfAt(s, "\n", |ls[0]|);
      assert s[..|ls[0]|] == ls[0];
      assert s[|ls[0]| + 1..] == rest;
      SplitJoin(ls[1..]);
    }
  }

  /** A field without newlines keeps its template line a single line. */
  predicate OneLine(v: JsonField) {
    v.FalsyValue? || NoNewline(v.text)
  }

  lemma LabelledLine(heading: string, v: JsonField, fallback: string)
    requires NoNewline(heading) && OneLine(v) && NoNewline(fallback)
    ensures NoNewline(heading + OrElse(v, fallback))
  {
    var l := heading + OrElse(v, fallback);
    forall k | 0 <= k < |l| ensures l[k] != '\n' {
      if k >= |heading| {
        assert l[k] == OrElse(v, fallback)[k - |heading|];
      }
    }
  }

  /** No field of the memory holds a newline. */
  predicate FieldsOneLine(b: Booking) {
    && OneLine(b.name) && OneLine(b.email) && OneLine(b.phone) && OneLine(b.location)
    && OneLine(b.artist) && OneLine(b.priceRange) && OneLine(b.description) && OneLine(b.date)
  }

  /** Read line by line, the relayed summary is exactly the template: a
      heading and one labelled line per field, in the fixed order. */
  lemma SummaryReadsBack(b: Booking)
    requires FieldsOneLine(b)
    ensures SplitLines(Summary(b)) == SummaryLines(b)
    ensures |SplitLines(Summary(b))| == 11
  {
    SplitJoin(SummaryLines(b));
  }

  /** The date line says "(not specified)" exactly when the date is falsy (or
      is that very text), and is left bare only by a truthy date with empty
      text such as `[]`; any other field leaves its heading with nothing after
      it exactly when it is falsy or shows as empty text. */
  lemma {:induction false} FalsyFieldsRendering(b: Booking)
    ensures SummaryLines(b)[9] == "Appointment Date: " + NotSpecified <==>
              (b.date.FalsyValue? || b.date.text == NotSpecified)
    ensures SummaryLines(b)[9] == "Appointment Date: " <==> b.date == Truthy("")
    ensures SummaryLines(b)[2] == "Name: " <==> b.name in {FalsyValue, Truthy("")}
    ensures SummaryLines(b)[3] == "Email: " <==> b.email in {FalsyValue, Truthy("")}
    ensures SummaryLines(b)[4] == "Phone: " <==> b.phone in {FalsyValue, Truthy("")}
    ensures SummaryLines(b)[5] == "Location: " <==> b.location in {FalsyValue, Truthy("")}
    ensures SummaryLines(b)[6] == "Artist: " <==> b.artist in {FalsyValue, Truthy("")}
    ensures SummaryLines(b)[7] == "Price Range: " <==> b.priceRange in {FalsyValue, Truthy("")}
    ensures SummaryLines(b)[8] == "Description: " <==> b.description in {FalsyValue, Truthy("")}
  {
    LabelSuffix("Appointment Date: ", OrElse(b.date, NotSpecified), NotSpecified);
    LabelSuffix("Appointment Date: ", OrElse(b.date, NotSpecified), "");
    assert "Appointment Date: " + "" == "Appointment Date: ";
    LabelSuffix("Name: ", OrElse(b.name, ""), "");
    LabelSuffix("Email: ", OrElse(b.email, ""), "");
    LabelSuffix("Phone: ", OrElse(b.phone, ""), "");
    LabelSuffix("Location: ", OrElse(b.location, ""), "");
    LabelSuffix("Artist: ", OrElse(b.artist, ""), "");
    LabelSuffix("Price Range: ", OrElse(b.priceRange, ""), "");
    LabelSuffix("Description: ", OrElse(b.description, ""), "");
  }

  /** Two lines with the same heading are equal exactly when what follows the
      heading is. */
  lemma LabelSuffix(heading: string, x: string, y: string)
    ensures heading + x == heading + y <==> x == y
  {
    if heading + x == heading + y {
      assert x == (heading + x)[|heading|..];
    }
  }

  /** What happened to the handoff on this turn. */
  datatype HandoffResult =
    | NotRequested                   // no marker in the text
    | SummaryFailed                  // the memory did not parse as JSON
    | Delivered(summary: string)     // the summary was sent
    | NotDelivered(summary: string)  // the send was rejected

  /** The response text and the handoff of one turn. */
  datatype Outcome = Outcome(text: string, handoff: HandoffResult)

  /** Steps 10 and 11. `parseJson` stands for `JSON.parse` and `send` for the
      Telegram send (true when it resolves). */
  function Forward(text: string, memory: string, parseJson: string -> Option<Booking>, send: string -> bool): (r: Outcome)
    ensures !Contains(text, ForwardMarker) ==> r == Outcome(text, NotRequested)
    ensures Contains(text, ForwardMarker) ==>
              r.handoff != NotRequested && r.text == Trim(RemoveFirst(text, ForwardMarker))
    ensures r.handoff == SummaryFailed <==> Contains(text, ForwardMarker) && parseJson(memory).None?
    ensures r.handoff.Delivered? || r.handoff.NotDelivered? ==>
              && parseJson(memory).Some?
              && r.handoff.summary == Summary(parseJson(memory).value)
              && (r.handoff.Delivered? <==> send(r.handoff.summary))
  {
    if !Contains(text, ForwardMarker) then Outcome(text, NotRequested)
    else
      var cleaned := Trim(RemoveFirst(text, ForwardMarker));
      match parseJson(memory)
      case None => Outcome(cleaned, SummaryFailed)
      case Some(booking) =>
        var summary := Summary(booking);
        Outcome(cleaned, if send(summary) then Delivered(summary) else NotDelivered(summary))
  }

  /** The response text does not depend on whether the memory parses or the
      send succeeds. */
  lemma TextIgnoresDelivery(text: string, memory: string,
                            parse1: string -> Option<Booking>, send1: string -> bool,
                            parse2: string -> Option<Booking>, send2: string -> bool)
    ensures Forward(text, memory, parse1, send1).text == Forward(text, memory, parse2, send2).text
  {
  }

  /** Only the first marker is removed: a text with two separate markers still
      shows one to the user after the handoff. */
  lemma {:induction false} SecondMarkerLeaks(text: string, memory: string,
                                             parseJson: string -> Option<Booking>, send: string -> bool,
                                             i: nat, j: nat)
    requires IsPrefixAt(text, i, ForwardMarker) && IsPrefixAt(text, j, ForwardMarker)
    requires i + |ForwardMarker| <= j
    ensures Forward(text, memory, parseJson, send).handoff != NotRequested
    ensures Contains(Forward(text, memory, parseJson, send).text, ForwardMarker)
  {
    ContainsAt(text, ForwardMarker, i);
    RemoveFirstKeepsLater(text, ForwardMarker, i, j);
    TrimKeeps(RemoveFirst(text, ForwardMarker), ForwardMarker);
  }

  /** A marker written right after `#ENDDATA` is cut out with the data block,
      so, when the block ends the reply and no marker precedes it, no summary
      is sent and the reply is returned as cleaned by step 9. */
  lemma ConsumedMarkerNoHandoff(reply: string, memory: string,
                                parseJson: string -> Option<Booking>, send: string -> bool)
    requires Exec(reply).Some? && Exec(reply).value.Forwarded()
    requires AllSpace(reply, Exec(reply).value.end, |reply|)
    requires !Contains(reply[..Exec(reply).value.start], ForwardMarker)
    ensures Forward(ExtractData(reply, memory).text, ExtractData(reply, memory).memory, parseJson, send)
            == Outcome(ExtractData(reply, memory).text, NotRequested)
  {
    TrailingMarkerConsumed(reply, memory);
  }
}
