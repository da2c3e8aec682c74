/** Step 9 of the chat handler: the hidden `#DATA` block at the end of a model
    reply. The handler runs
        /#DATA:\s*({[\s\S]*?})\s*#ENDDATA\s*(#FORWARD_TELEGRAM#)?/m
    once (`exec`, leftmost match, no global flag), stores the captured brace
    body as the session memory and cuts the whole match out of the reply
    (`replace` with the same regular expression removes that same match).

    The regular expression is modelled by an explicit scanner (MatchAt,
    FindMatch) and, independently, by the declarative predicate IsMatch that
    says what a match of it is under JavaScript's backtracking rules; the
    lemmas below show that the scanner returns exactly the leftmost match. */
module DataBlock {
  import opened Wrappers
  import opened Strings

  const DataTag := "#DATA:"
  const EndTag := "#ENDDATA"
  const ForwardMarker := "#FORWARD_TELEGRAM#"

  /** One match in a reply s: s[start..end] is the whole match, s[open..close + 1]
      the captured group 1 (the brace body), s[tag..tag + |EndTag|] the end tag,
      s[after..end] the optional group 2 (the forward marker). */
  datatype Match = Match(start: nat, open: nat, close: nat, tag: nat, after: nat, end: nat)
  {
    /** Group 2 took part in the match. */
    predicate Forwarded() {
      end > after
    }
  }

  /** A `}` at k that the rest of the pattern, `}\s*#ENDDATA`, can follow. */
  predicate ClosesAt(s: string, k: nat) {
    k < |s| && s[k] == '}' && IsPrefixAt(s, SkipSpace(s, k + 1), EndTag)
  }

  /** The bare shape of a match: its parts in order, a `{` where the body
      opens and a `}` where it closes. */
  predicate Shape(s: string, m: Match) {
    && m.start + |DataTag| <= m.open < m.close < m.tag
    && m.tag + |EndTag| <= m.after <= m.end <= |s|
    && s[m.open] == '{' && s[m.close] == '}'
  }

  /** What it means for m to be the match of the pattern that starts at
      m.start. Each `\s*` is greedy, so it ends where the whitespace ends;
      `[\s\S]*?` is lazy, so the body is closed by the FIRST `}` that
      `\s*#ENDDATA` can follow; the optional group is greedy, so the marker is
      taken whenever it is there. */
  ghost predicate IsMatch(s: string, m: Match) {
    && Shape(s, m)
    && IsPrefixAt(s, m.start, DataTag)
    && AllSpace(s, m.start + |DataTag|, m.open)
    && (forall k :: m.open < k < m.close ==> !ClosesAt(s, k))
    && AllSpace(s, m.close + 1, m.tag) && IsPrefixAt(s, m.tag, EndTag)
    && AllSpace(s, m.tag + |EndTag|, m.after) && (m.after == |s| || !IsSpace(s[m.after]))
    && (if IsPrefixAt(s, m.after, ForwardMarker)
        then m.end == m.after + |ForwardMarker|
        else m.end == m.after)
  }

  /** The first `}` at or after k that closes the body. */
  function FindClose(s: string, k: nat): (c: Option<nat>)
    requires k <= |s|
    ensures c.Some? ==> k <= c.value < |s|
    decreases |s| - k
  {
    if k == |s| then None
    else if ClosesAt(s, k) then Some(k)
    else FindClose(s, k + 1)
  }

  /** What FindClose returns closes the body. */
  lemma {:induction false} FindCloseCloses(s: string, k: nat)
    requires k <= |s| && FindClose(s, k).Some?
    ensures ClosesAt(s, FindClose(s, k).value)
    decreases |s| - k
  {
    if !ClosesAt(s, k) {
      FindCloseCloses(s, k + 1);
    }
  }

  /** FindClose finds the first closing `}`: none lies between k and its
      answer, and none at all from k on when it finds nothing. */
  lemma {:induction false} FindCloseSkips(s: string, k: nat)
    requires k <= |s|
    ensures FindClose(s, k).Some? ==> forall x :: k <= x < FindClose(s, k).value ==> !ClosesAt(s, x)
    ensures FindClose(s, k).None? ==> forall x :: k <= x < |s| ==> !ClosesAt(s, x)
    decreases |s| - k
  {
    if k < |s| && !ClosesAt(s, k) {
      FindCloseSkips(s, k + 1);
    }
  }

  /** The regular expression tried at position i only. */
  function MatchAt(s: string, i: nat): (r: Option<Match>)
    requires i <= |s|
    ensures r.Some? ==> r.value.start == i && Shape(s, r.value)
  {
    if !IsPrefixAt(s, i, DataTag) then None
    else
      var open := SkipSpace(s, i + |DataTag|);
      if open == |s| || s[open] != '{' then None
      else
        match FindClose(s, open + 1)
        case None => None
        case Some(close) =>
          FindCloseCloses(s, open + 1);
          Some(MatchClosedAt(s, i, open, close))
  }

  /** The rest of a match once the body is closed at `close`: `\s*#ENDDATA`,
      then `\s*`, then the marker if it is there. */
  function MatchClosedAt(s: string, i: nat, open: nat, close: nat): Match
    requires ClosesAt(s, close)
  {
    var tag := SkipSpace(s, close + 1);
    var after := SkipSpace(s, tag + |EndTag|);
    var end := if IsPrefixAt(s, after, ForwardMarker) then after + |ForwardMarker| else after;
    Match(i, open, close, tag, after, end)
  }

  /** The match found when the search starts at i: the first position from i
      on where MatchAt succeeds. */
  function FindMatch(s: string, i: nat): (r: Option<Match>)
    requires i <= |s|
    ensures r.Some? ==> i <= r.value.start <= |s| && Shape(s, r.value)
    decreases |s| - i
  {
    match MatchAt(s, i)
    case Some(m) => Some(m)
    case None => if i == |s| then None else FindMatch(s, i + 1)
  }

  /** What FindMatch returns is what MatchAt answers at its start. */
  lemma {:induction false} FindMatchFound(s: string, i: nat)
    requires i <= |s| && FindMatch(s, i).Some?
    ensures MatchAt(s, FindMatch(s, i).value.start) == FindMatch(s, i)
    decreases |s| - i
  {
    if MatchAt(s, i).None? {
      FindMatchFound(s, i + 1);
    }
  }

  /** `dataRegex.exec(s)`: the search from the start of the reply. */
  function Exec(s: string): (r: Option<Match>)
    ensures r.Some? ==> Shape(s, r.value)
  {
    FindMatch(s, 0)
  }

  /** The scan at i gets past the tag, finds the `{` that opens the body
      where the whitespace after the tag ends, and closes the body at close. */
  predicate Scanned(s: string, i: nat, open: nat, close: nat) {
    && IsPrefixAt(s, i, DataTag)
    && open == SkipSpace(s, i + |DataTag|) && open < |s| && s[open] == '{'
    && FindClose(s, open + 1) == Some(close) && ClosesAt(s, close)
  }

  /** One step of MatchAt, in a context small enough to unfold it cheaply. */
  lemma MatchAtUnfold(s: string, i: nat, open: nat, close: nat)
    requires i <= |s| && Scanned(s, i, open, close)
    ensures MatchAt(s, i) == Some(MatchClosedAt(s, i, open, close))
  {
    assert !(open == |s| || s[open] != '{');
  }

  /** The steps of a scan at i that succeeds. */
  lemma MatchAtSteps(s: string, i: nat) returns (open: nat, close: nat)
    requires i <= |s| && MatchAt(s, i).Some?
    ensures Scanned(s, i, open, close) && MatchAt(s, i) == Some(MatchClosedAt(s, i, open, close))
  {
    open := SkipSpace(s, i + |DataTag|);
    assert IsPrefixAt(s, i, DataTag) && open < |s| && s[open] == '{' && FindClose(s, open + 1).Some?;
    close := FindClose(s, open + 1).value;
    FindCloseCloses(s, open + 1);
    MatchAtUnfold(s, i, open, close);
  }

  /** A scan that closes the body at the first closing `}` yields a match of
      the pattern. */
  lemma ClosedMatchIsMatch(s: string, i: nat, open: nat, close: nat)
    requires IsPrefixAt(s, i, DataTag) && open == SkipSpace(s, i + |DataTag|)
    requires open < close && ClosesAt(s, close) && s[open] == '{'
    requires forall x :: open + 1 <= x < close ==> !ClosesAt(s, x)
    ensures IsMatch(s, MatchClosedAt(s, i, open, close))
  {
    var tag := SkipSpace(s, close + 1);
    var after := SkipSpace(s, tag + |EndTag|);
    var m := MatchClosedAt(s, i, open, close);
    assert m.tag == tag && m.after == after;
    SkipSpaceSkipsSpace(s, i + |DataTag|);
    SkipSpaceSkipsSpace(s, close + 1);
    SkipSpaceSkipsSpace(s, tag + |EndTag|);
    assert Shape(s, m);
    assert forall k :: m.open < k < m.close ==> !ClosesAt(s, k);
  }

  /** The scanner finds only matches of the pattern. */
  lemma MatchAtSound(s: string, i: nat)
    requires i <= |s| && MatchAt(s, i).Some?
    ensures IsMatch(s, MatchAt(s, i).value)
  {
    var open, close := MatchAtSteps(s, i);
    FindCloseSkips(s, open + 1);
    ClosedMatchIsMatch(s, i, open, close);
  }

  /** FindClose returns the first closing `}`, whichever way it is found. */
  lemma FindCloseFirst(s: string, k: nat, c: nat)
    requires k <= c < |s| && ClosesAt(s, c)
    requires forall x :: k <= x < c ==> !ClosesAt(s, x)
    ensures FindClose(s, k) == Some(c)
  {
    var r := FindClose(s, k);
    FindCloseSkips(s, k);
    if r.Some? {
      FindCloseCloses(s, k);
    }
    if r.None? || r.value < c || c < r.value {
      assert false;
    }
  }

  /** The tail of a match, from the `}` on, is where the rest of the scan
      lands once the body is closed there: the `}` closes the body, and
      MatchClosedAt rebuilds the match. */
  lemma EndLandsOn(s: string, m: Match)
    requires Shape(s, m)
    requires AllSpace(s, m.close + 1, m.tag) && IsPrefixAt(s, m.tag, EndTag)
    requires AllSpace(s, m.tag + |EndTag|, m.after) && (m.after == |s| || !IsSpace(s[m.after]))
    requires if IsPrefixAt(s, m.after, ForwardMarker) then m.end == m.after + |ForwardMarker| else m.end == m.after
    ensures ClosesAt(s, m.close) && MatchClosedAt(s, m.start, m.open, m.close) == m
  {
    SkipSpaceUnique(s, m.close + 1, m.tag);
    SkipSpaceUnique(s, m.tag + |EndTag|, m.after);
  }

  /** A match of the pattern is what the scan at its start finds. */
  lemma MatchScanned(s: string, m: Match)
    requires IsMatch(s, m)
    ensures Scanned(s, m.start, m.open, m.close) && MatchClosedAt(s, m.start, m.open, m.close) == m
  {
    SkipSpaceUnique(s, m.start + |DataTag|, m.open);
    EndLandsOn(s, m);
    FindCloseFirst(s, m.open + 1, m.close);
  }

  /** The scanner misses nothing: a match of the pattern at some position is
      exactly what MatchAt returns there. */
  lemma MatchAtComplete(s: string, m: Match)
    requires IsMatch(s, m)
    ensures MatchAt(s, m.start) == Some(m)
  {
    MatchScanned(s, m);
    MatchAtUnfold(s, m.start, m.open, m.close);
  }

  /** A match at a given position is unique. */
  lemma MatchUnique(s: string, m1: Match, m2: Match)
    requires IsMatch(s, m1) && IsMatch(s, m2) && m1.start == m2.start
    ensures m1 == m2
  {
    MatchAtComplete(s, m1);
    MatchAtComplete(s, m2);
  }

  /** The search from i reaches every position j at or after i where the
      pattern matches. */
  lemma {:induction false} FindMatchReaches(s: string, i: nat, j: nat)
    requires i <= j <= |s| && MatchAt(s, j).Some?
    ensures FindMatch(s, i).Some? && FindMatch(s, i).value.start <= j
    decreases j - i
  {
    if MatchAt(s, i).None? {
      assert i < j;
      FindMatchReaches(s, i + 1, j);
      assert FindMatch(s, i) == FindMatch(s, i + 1);
    } else {
      assert FindMatch(s, i) == MatchAt(s, i);
    }
  }

  /** `exec` returns a match of the pattern, and the leftmost one: no match
      starts before it, and a match that starts where it does is it. When
      `exec` returns nothing, the reply holds no match anywhere. */
  lemma ExecLeftmost(s: string, m: Match)
    requires IsMatch(s, m)
    ensures Exec(s).Some? && Exec(s).value.start <= m.start
    ensures Exec(s).value.start == m.start ==> Exec(s).value == m
  {
    MatchAtComplete(s, m);
    FindMatchReaches(s, 0, m.start);
    FindMatchFound(s, 0);
  }

  /** What `exec` returns is a match of the pattern. */
  lemma ExecSound(s: string)
    requires Exec(s).Some?
    ensures IsMatch(s, Exec(s).value)
  {
    FindMatchFound(s, 0);
    MatchAtSound(s, Exec(s).value.start);
  }

  /** The captured group 1: the brace body. */
  function Body(s: string, m: Match): (b: string)
    requires Shape(s, m)
    ensures |b| >= 2 && b[0] == '{' && b[|b| - 1] == '}'
  {
    s[m.open..m.close + 1]
  }

  /** `s.replace(dataRegex, '')`: the match cut out. */
  function Excise(s: string, m: Match): (r: string)
    requires Shape(s, m)
    ensures |r| < |s|
  {
    s[..m.start] + s[m.end..]
  }

  /** The visible text and the memory after step 9. */
  datatype Extraction = Extraction(text: string, memory: string)

  /** Step 9 as written: when the pattern matches, the memory becomes the
      captured body (the assignment inside the `try` cannot fail, so the body
      is not checked as JSON) and the reply loses the match and is trimmed;
      otherwise memory and reply are untouched, and the reply is NOT trimmed. */
  function ExtractData(reply: string, memory: string): (e: Extraction)
    ensures Exec(reply).None? <==> e == Extraction(reply, memory)
  {
    ExtractWith(reply, memory, Exec(reply))
  }

  /** Step 9 once `exec` has answered r. */
  function ExtractWith(reply: string, memory: string, r: Option<Match>): (e: Extraction)
    requires r.Some? ==> Shape(reply, r.value)
    ensures r.None? ==> e == Extraction(reply, memory)
    ensures r.Some? ==>
      && |e.memory| >= 2 && e.memory[0] == '{' && e.memory[|e.memory| - 1] == '}'
      && (|e.text| > 0 ==> !IsSpace(e.text[0]) && !IsSpace(e.text[|e.text| - 1]))
      && |e.text| < |reply|
  {
    match r
    case None => Extraction(reply, memory)
    case Some(m) => Extraction(Trim(Excise(reply, m)), Body(reply, m))
  }

  /** The new memory is the body captured by the leftmost `#DATA:` block:
      it stands right after the tag and any whitespace, and it ends at the
      first `}` that is followed, after whitespace, by `#ENDDATA`. */
  lemma ExtractedMemoryIsLeftmostBody(reply: string, memory: string, m: Match)
    requires IsMatch(reply, m)
    requires forall m' :: IsMatch(reply, m') ==> m.start <= m'.start
    ensures ExtractData(reply, memory).memory == reply[m.open..m.close + 1]
    ensures ExtractData(reply, memory).text == Trim(reply[..m.start] + reply[m.end..])
  {
    ExecLeftmost(reply, m);
    ExecSound(reply);
    MatchUnique(reply, Exec(reply).value, m);
    assert Exec(reply) == Some(m);
  }

  /** A forward marker that follows `#ENDDATA` with only whitespace between is
      part of the match, so cutting the block out also removes it: when the
      block ends the reply and the text before it has no marker, the text
      after step 9 has none either. */
  lemma {:induction false} TrailingMarkerConsumed(reply: string, memory: string)
    requires Exec(reply).Some? && Exec(reply).value.Forwarded()
    requires AllSpace(reply, Exec(reply).value.end, |reply|)
    requires !Contains(reply[..Exec(reply).value.start], ForwardMarker)
    ensures !Contains(ExtractData(reply, memory).text, ForwardMarker)
  {
    var m := Exec(reply).value;
    var x := Excise(reply, m);
    assert x[..m.start] == reply[..m.start];
    assert AllSpace(x, m.start, |x|) by {
      forall k | m.start <= k < |x| ensures SpaceAt(x, k) {
        assert SpaceAt(reply, m.end + (k - m.start));
        assert x[k] == reply[m.end + (k - m.start)];
      }
    }
    if Contains(Trim(x), ForwardMarker) {
      TrimOfPadded(x, m.start, ForwardMarker);
    }
  }
}
