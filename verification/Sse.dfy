/**
 The server-sent event printer of apps/api/src/app/core/sse.py, against the parser and
 the interpreter of sections 9.2.5 and 9.2.6 of the WHATWG HTML Standard.
 */
module Sse {
  import opened Basics
  import opened Text
  import opened JsonGrammar
  import opened JsonValues

  // ---------------------------------------------------------------- messages

  datatype Data = Plainly(text: string) | Dict(fields: seq<Field>)

  // An absent event or id is the empty string and an absent retry is 0: the printer treats them alike.
  datatype Message = Message(data: Data, event: string, id: string, retry: int)

  const DONE := Message(Plainly("done"), "done", "", 0)

  function DataText(d: Data): string {
    match d
    case Plainly(s) => s
    case Dict(fs) => Dumps(VObj(fs), DEFAULT_STYLE)
  }

  function IntText(n: int): string { if n < 0 then "-" + NatText(-n) else NatText(n) }

  function FieldLine(name: string, value: string): string { name + ": " + value }

  // `s.split("\n")`.
  function SplitLines(s: string): (ps: seq<string>)
    ensures ps != []
  {
    if s == [] then [""]
    else
      var ps, c := SplitLines(s[..|s| - 1]), s[|s| - 1];
      var n := |ps| - 1;
      if c == '\n' then ps + [""] else ps[..n] + [ps[n] + [c]]
  }

  function DataLines(ps: seq<string>): seq<string> {
    if ps == [] then [] else DataLines(ps[..|ps| - 1]) + [FieldLine("data", ps[|ps| - 1])]
  }

  function EventLines(m: Message): seq<string> { if m.event == "" then [] else [FieldLine("event", m.event)] }

  function IdLines(m: Message): seq<string> { if m.id == "" then [] else [FieldLine("id", m.id)] }

  function RetryLines(m: Message): seq<string> { if m.retry == 0 then [] else [FieldLine("retry", IntText(m.retry))] }

  // The lines before the data lines.
  function HeadLines(m: Message): seq<string> { EventLines(m) + IdLines(m) + RetryLines(m) }

  function MessageLines(m: Message): seq<string> { HeadLines(m) + DataLines(SplitLines(DataText(m.data))) + [""] }

  // Every line ended by a line feed.
  function Terminated(ls: seq<string>): string {
    if ls == [] then "" else Terminated(ls[..|ls| - 1]) + ls[|ls| - 1] + "\n"
  }

  function Format(m: Message): string { Terminated(MessageLines(m)) }

  function Stream(ms: seq<Message>): string {
    if ms == [] then "" else Stream(ms[..|ms| - 1]) + Format(ms[|ms| - 1])
  }

  // `"\n".join(ls)`.
  function Join(ls: seq<string>): string
    requires ls != []
  {
    var n := |ls| - 1;
    if n == 0 then ls[0] else Join(ls[..n]) + "\n" + ls[n]
  }

  lemma {:induction false} JoinTerminated(ls: seq<string>)
    requires ls != []
    ensures Join(ls) + "\n" == Terminated(ls)
  {
    var n := |ls| - 1;
    if n == 0 {
      assert Terminated(ls[..0]) == "" && "" + ls[0] == ls[0];
    } else {
      JoinTerminated(ls[..n]);
    }
  }

  lemma TerminatedLast(ls: seq<string>, l: string)
    ensures Terminated(ls + [l]) == Terminated(ls) + l + "\n"
  {
    assert (ls + [l])[..|ls|] == ls;
  }

  method ToSseFormat(m: Message) returns (s: string)
    ensures s == Format(m)
  {
    hide SplitLines, DataText, IntText, FieldLine, Terminated, Join;
    var lines: seq<string> := [];
    if m.event != "" {
      lines := lines + [FieldLine("event", m.event)];
    }
    if m.id != "" {
      lines := lines + [FieldLine("id", m.id)];
    }
    if m.retry != 0 {
      lines := lines + [FieldLine("retry", IntText(m.retry))];
    }
    assert lines == HeadLines(m);
    hide HeadLines, DataLines;
    var dataStr := DataText(m.data);
    var pieces := SplitLines(dataStr);
    for i := 0 to |pieces|
      invariant lines == HeadLines(m) + DataLines(pieces[..i])
    {
      DataLinesStep(pieces, i);
      lines := lines + [FieldLine("data", pieces[i])];
    }
    assert pieces[..|pieces|] == pieces;
    JoinTerminated(lines);
    TerminatedLast(lines, "");
    assert Terminated(lines) + "" == Terminated(lines);
    s := Join(lines) + "\n" + "\n";
  }

  lemma DataLinesStep(ps: seq<string>, i: nat)
    requires i < |ps|
    ensures DataLines(ps[..i + 1]) == DataLines(ps[..i]) + [FieldLine("data", ps[i])]
  {
    hide FieldLine;
    assert ps[..i + 1][..i] == ps[..i];
  }

  function ErrorMessage(e: string): Message { Message(Dict([Field("error", VStr(e))]), "error", "", 0) }

  // What a stream sends of its source's messages. `closing` is how many were sent when the stream was
  // closed: a closed stream sends no more messages and no done event. The source's failure, when it
  // comes to that, is sent whether the stream is closed or not.
  function Yielded(ms: seq<Message>, failure: Option<string>, closing: Option<nat>): seq<Message> {
    if closing.Some? && closing.value < |ms| then ms[..closing.value]
    else if failure.Some? then ms + [ErrorMessage(failure.value)]
    else if closing == Some(|ms|) then ms
    else ms + [DONE]
  }

  method StreamAll(ms: seq<Message>, failure: Option<string>, closing: Option<nat>) returns (s: string)
    ensures s == Stream(Yielded(ms, failure, closing))
  {
    hide Format;
    s := "";
    for i := 0 to |ms|
      invariant s == Stream(ms[..i]) && (closing.Some? ==> i <= closing.value)
    {
      if closing == Some(i) {
        return;
      }
      var part := ToSseFormat(ms[i]);
      StreamStep(ms[..i], ms[i]);
      assert ms[..i + 1] == ms[..i] + [ms[i]];
      s := s + part;
    }
    assert ms[..|ms|] == ms;
    if failure.Some? {
      var part := ToSseFormat(ErrorMessage(failure.value));
      StreamStep(ms, ErrorMessage(failure.value));
      return s + part;
    }
    if closing != Some(|ms|) {
      var part := ToSseFormat(DONE);
      StreamStep(ms, DONE);
      return s + part;
    }
  }

  lemma StreamStep(ms: seq<Message>, m: Message)
    ensures Stream(ms + [m]) == Stream(ms) + Format(m)
  {
    hide Format;
    assert (ms + [m])[..|ms|] == ms;
  }

  // ---------------------------------------------------------------- section 9.2.5: lines

  predicate IsBreak(c: char) { c == '\n' || c == '\r' }

  predicate NoBreak(s: string) { forall i | 0 <= i < |s| :: !IsBreak(s[i]) }

  function LineEnd(s: string): (n: nat)
    ensures n <= |s| && NoBreak(s[..n]) && (n < |s| ==> IsBreak(s[n]))
  {
    if s == [] || IsBreak(s[0]) then 0
    else
      var n := LineEnd(s[1..]) + 1;
      assert forall i | 0 < i < n :: s[..n][i] == s[1..][..n - 1][i - 1];
      n
  }

  // What ends a line is CR LF, LF or CR; what follows the last line end is pending and discarded.
  function Lines(s: string): (ls: seq<string>)
    ensures Unbroken(ls)
  {
    var n := LineEnd(s);
    if n == |s| then []
    else if s[n] == '\r' && n + 1 < |s| && s[n + 1] == '\n' then [s[..n]] + Lines(s[n + 2..])
    else [s[..n]] + Lines(s[n + 1..])
  }

  // ---------------------------------------------------------------- section 9.2.6: interpretation

  datatype Event = Event(kind: string, data: string, id: string)

  datatype Client = Client(data: string, kind: string, id: string, retry: Option<nat>, events: seq<Event>)

  const FRESH := Client("", "", "", None, [])

  function Dispatch(c: Client): Client {
    if c.data == "" then c.(kind := "")
    else
      var data := if c.data[|c.data| - 1] == '\n' then c.data[..|c.data| - 1] else c.data;
      var kind := if c.kind == "" then "message" else c.kind;
      Client("", "", c.id, c.retry, c.events + [Event(kind, data, c.id)])
  }

  function ProcessField(c: Client, name: string, value: string): Client {
    if name == "event" then c.(kind := value)
    else if name == "data" then c.(data := c.data + value + "\n")
    else if name == "id" then (if '\0' in value then c else c.(id := value))
    else if name == "retry" then (if value != [] && AllDigits(value) then c.(retry := Some(DigitsVal(value))) else c)
    else c
  }

  function ProcessLine(c: Client, line: string): Client {
    if line == "" then Dispatch(c)
    else if line[0] == ':' then c
    else
      var i := IndexOf(line, ':', 0);
      if i == |line| then ProcessField(c, line, "")
      else
        var value := line[i + 1..];
        ProcessField(c, line[..i], if value != [] && value[0] == ' ' then value[1..] else value)
  }

  function Feed(c: Client, ls: seq<string>): Client {
    if ls == [] then c else ProcessLine(Feed(c, ls[..|ls| - 1]), ls[|ls| - 1])
  }

  // A leading byte order mark is dropped.
  function Interpret(s: string): Client {
    Feed(FRESH, Lines(if s != [] && s[0] == '\U{FEFF}' then s[1..] else s))
  }

  // ---------------------------------------------------------------- what should be heard

  predicate Clean(m: Message) {
    && '\r' !in DataText(m.data)
    && NoBreak(m.event)
    && NoBreak(m.id) && '\0' !in m.id
  }

  function Kind(m: Message): string { if m.event == "" then "message" else m.event }

  function LastId(ms: seq<Message>): string {
    if ms == [] then ""
    else if ms[|ms| - 1].id != "" then ms[|ms| - 1].id else LastId(ms[..|ms| - 1])
  }

  // A negative time is printed but not accepted.
  function LastRetry(ms: seq<Message>): Option<nat> {
    if ms == [] then None
    else if ms[|ms| - 1].retry > 0 then Some(ms[|ms| - 1].retry) else LastRetry(ms[..|ms| - 1])
  }

  function Sent(ms: seq<Message>): seq<Event> {
    if ms == [] then []
    else
      var m := ms[|ms| - 1];
      Sent(ms[..|ms| - 1]) + [Event(Kind(m), DataText(m.data), LastId(ms))]
  }

  // ---------------------------------------------------------------- lines come back

  lemma LineEndAt(l: string, rest: string)
    requires NoBreak(l)
    ensures LineEnd(l + "\n" + rest) == |l|
  {
    var s, n := l + "\n" + rest, LineEnd(l + "\n" + rest);
    assert s[|l|] == '\n' && forall i | 0 <= i < |l| :: s[i] == l[i];
    assert forall i | 0 <= i < n :: s[..n][i] == s[i];
    assert !NoBreak(s[..|l| + 1]) by {
      assert s[..|l| + 1][|l|] == '\n';
    }
    assert n <= |l|;
  }

  lemma LinesStep(l: string, tail: string)
    requires NoBreak(l)
    ensures Lines(l + "\n" + tail) == [l] + Lines(tail)
  {
    LineEndAt(l, tail);
    hide LineEnd, NoBreak;
    var s := l + "\n" + tail;
    assert s[|l|] == '\n' && s[..|l|] == l && s[|l| + 1..] == tail;
  }

  lemma {:induction false} LinesOfTerminated(ls: seq<string>, rest: string)
    requires Unbroken(ls)
    ensures Lines(Terminated(ls) + rest) == ls + Lines(rest)
  {
    hide Lines, NoBreak, LineEnd;
    if ls == [] {
      assert Terminated(ls) + rest == rest;
      assert ls + Lines(rest) == Lines(rest);
    } else {
      var n := |ls| - 1;
      var l, head := ls[n], ls[..n];
      assert Terminated(ls) == Terminated(head) + l + "\n";
      hide Terminated;
      assert Terminated(ls) + rest == Terminated(head) + (l + "\n" + rest);
      LinesOfTerminated(head, l + "\n" + rest);
      LinesStep(l, rest);
      assert head + ([l] + Lines(rest)) == ls + Lines(rest);
    }
  }

  lemma {:induction false} TerminatedAppend(a: seq<string>, b: seq<string>)
    ensures Terminated(a + b) == Terminated(a) + Terminated(b)
  {
    if b == [] {
      assert a + b == a;
    } else {
      var n := |b| - 1;
      assert (a + b)[..|a + b| - 1] == a + b[..n];
      TerminatedAppend(a, b[..n]);
    }
  }

  // Putting the last character back on the last line.
  lemma LastLineGrows(ps: seq<string>, s: string, c: char)
    requires ps != [] && Terminated(ps) == s + "\n"
    ensures var n := |ps| - 1; Terminated(ps[..n] + [ps[n] + [c]]) == s + [c] + "\n"
  {
    hide Terminated;
    var n := |ps| - 1;
    var head := Terminated(ps[..n]) + ps[n];
    TerminatedLast(ps[..n], ps[n]);
    assert ps == ps[..n] + [ps[n]];
    SameBefore(head, s);
    TerminatedLast(ps[..n], ps[n] + [c]);
    assert Terminated(ps[..n]) + (ps[n] + [c]) == head + [c];
  }

  lemma SameBefore(a: string, b: string)
    requires a + "\n" == b + "\n"
    ensures a == b
  {
    assert a == (a + "\n")[..|a|];
  }

  lemma {:induction false} SplitTerminated(s: string)
    ensures Terminated(SplitLines(s)) == s + "\n"
  {
    if s == [] {
      assert Terminated([""][..0]) == "";
    } else {
      hide Terminated;
      var k := |s| - 1;
      SplitTerminated(s[..k]);
      TerminatedLast(SplitLines(s[..k]), "");
      LastLineGrows(SplitLines(s[..k]), s[..k], s[k]);
    }
  }

  lemma {:induction false} SplitNoBreak(s: string)
    requires '\r' !in s
    ensures Unbroken(SplitLines(s))
  {
    if s != [] {
      SplitNoBreak(s[..|s| - 1]);
    }
  }

  // ---------------------------------------------------------------- one message is heard

  lemma {:induction false} FeedAppend(c: Client, a: seq<string>, b: seq<string>)
    ensures Feed(c, a + b) == Feed(Feed(c, a), b)
  {
    if b == [] {
      assert a + b == a;
    } else {
      assert (a + b)[..|a + b| - 1] == a + b[..|b| - 1];
      FeedAppend(c, a, b[..|b| - 1]);
    }
  }

  lemma FieldLineRead(c: Client, name: string, value: string)
    requires name != "" && forall i | 0 <= i < |name| :: name[i] != ':'
    ensures ProcessLine(c, FieldLine(name, value)) == ProcessField(c, name, value)
  {
    hide ProcessField;
    var line := FieldLine(name, value);
    var i := IndexOf(line, ':', 0);
    assert line[|name|] == ':' && forall k | 0 <= k < |name| :: line[k] == name[k];
    assert i == |name|;
    assert line[..i] == name && line[i + 1..] == " " + value;
    assert (" " + value)[1..] == value;
  }

  lemma DataLineRead(c: Client, d: string, p: string)
    ensures ProcessLine(c.(data := c.data + d), FieldLine("data", p)) == c.(data := c.data + (d + p + "\n"))
  {
    hide ProcessLine;
    FieldLineRead(c.(data := c.data + d), "data", p);
    assert (c.data + d) + p + "\n" == c.data + (d + p + "\n");
  }

  lemma {:induction false} DataHeard(c: Client, ps: seq<string>)
    ensures Feed(c, DataLines(ps)) == c.(data := c.data + Terminated(ps))
  {
    if ps == [] {
      assert c.data + Terminated(ps) == c.data;
    } else {
      var n := |ps| - 1;
      assert DataLines(ps) == DataLines(ps[..n]) + [FieldLine("data", ps[n])];
      hide ProcessLine, FieldLine, Feed, DataLines;
      DataHeard(c, ps[..n]);
      DataLineRead(c, Terminated(ps[..n]), ps[n]);
    }
  }

  function NextId(id: string, m: Message): string { if m.id == "" then id else m.id }

  function NextRetry(r: Option<nat>, m: Message): Option<nat> { if m.retry > 0 then Some(m.retry) else r }

  lemma EventHeard(c: Client, m: Message)
    requires c.kind == ""
    ensures Feed(c, EventLines(m)) == c.(kind := m.event)
  {
    if m.event != "" {
      hide ProcessLine, Feed, FieldLine;
      FieldLineRead(c, "event", m.event);
    }
  }

  lemma IdHeard(c: Client, m: Message)
    requires '\0' !in m.id
    ensures Feed(c, IdLines(m)) == c.(id := NextId(c.id, m))
  {
    if m.id != "" {
      hide ProcessLine, Feed, FieldLine;
      FieldLineRead(c, "id", m.id);
    }
  }

  lemma RetryHeard(c: Client, m: Message)
    ensures Feed(c, RetryLines(m)) == c.(retry := NextRetry(c.retry, m))
  {
    if m.retry != 0 {
      hide ProcessLine, Feed, FieldLine;
      FieldLineRead(c, "retry", IntText(m.retry));
      if m.retry < 0 {
        assert IntText(m.retry)[0] == '-';
      }
    }
  }

  lemma HeadHeard(c: Client, m: Message)
    requires c.kind == "" && '\0' !in m.id
    ensures Feed(c, HeadLines(m)) == c.(kind := m.event, id := NextId(c.id, m), retry := NextRetry(c.retry, m))
  {
    hide EventLines, IdLines, RetryLines, Feed, NextId, NextRetry;
    FeedAppend(c, EventLines(m) + IdLines(m), RetryLines(m));
    FeedAppend(c, EventLines(m), IdLines(m));
    EventHeard(c, m);
    IdHeard(c.(kind := m.event), m);
    RetryHeard(c.(kind := m.event, id := NextId(c.id, m)), m);
  }

  lemma MessageHeard(c: Client, m: Message)
    requires c.data == "" && c.kind == "" && '\0' !in m.id
    ensures var id := NextId(c.id, m);
            Feed(c, MessageLines(m)) ==
              Client("", "", id, NextRetry(c.retry, m), c.events + [Event(Kind(m), DataText(m.data), id)])
  {
    hide ProcessField, DataText, HeadLines, DataLines;
    var text, head := DataText(m.data), HeadLines(m);
    var data := DataLines(SplitLines(text));
    FeedAppend(c, head + data, [""]);
    FeedAppend(c, head, data);
    HeadHeard(c, m);
    var c1 := c.(kind := m.event, id := NextId(c.id, m), retry := NextRetry(c.retry, m));
    DataHeard(c1, SplitLines(text));
    SplitTerminated(text);
    var c2 := c1.(data := text + "\n");
    assert "" + (text + "\n") == text + "\n";
    assert (text + "\n")[..|text|] == text;
  }

  // ---------------------------------------------------------------- every line is one line

  predicate Unbroken(ls: seq<string>) { forall i | 0 <= i < |ls| :: NoBreak(ls[i]) }

  lemma UnbrokenAppend(a: seq<string>, b: seq<string>)
    requires Unbroken(a) && Unbroken(b)
    ensures Unbroken(a + b)
  {
    hide NoBreak;
  }

  lemma FieldLineNoBreak(name: string, value: string)
    requires NoBreak(name) && NoBreak(value)
    ensures NoBreak(FieldLine(name, value))
  {
  }

  lemma {:induction false} DataLinesNoBreak(ps: seq<string>)
    requires Unbroken(ps)
    ensures Unbroken(DataLines(ps))
  {
    if ps != [] {
      var n := |ps| - 1;
      DataLinesNoBreak(ps[..n]);
      FieldLineNoBreak("data", ps[n]);
      hide NoBreak, FieldLine;
      UnbrokenAppend(DataLines(ps[..n]), [FieldLine("data", ps[n])]);
    }
  }

  lemma HeadLinesNoBreak(m: Message)
    requires NoBreak(m.event) && NoBreak(m.id)
    ensures Unbroken(HeadLines(m))
  {
    FieldLineNoBreak("event", m.event);
    FieldLineNoBreak("id", m.id);
    FieldLineNoBreak("retry", IntText(m.retry));
    hide NoBreak, FieldLine, IntText;
    UnbrokenAppend(EventLines(m), IdLines(m));
    UnbrokenAppend(EventLines(m) + IdLines(m), RetryLines(m));
  }

  lemma MessageLinesNoBreak(m: Message)
    requires Clean(m)
    ensures Unbroken(MessageLines(m))
  {
    hide DataText, DataLines, SplitLines, HeadLines, NoBreak, Unbroken;
    var ps := SplitLines(DataText(m.data));
    HeadLinesNoBreak(m);
    SplitNoBreak(DataText(m.data));
    DataLinesNoBreak(ps);
    EmptyNoBreak();
    UnbrokenAppend(HeadLines(m), DataLines(ps));
    UnbrokenAppend(HeadLines(m) + DataLines(ps), [""]);
  }

  lemma EmptyNoBreak()
    ensures Unbroken([""]) && Unbroken([]) && NoBreak("")
  {
  }

  // ---------------------------------------------------------------- the whole stream

  function AllLines(ms: seq<Message>): seq<string> {
    if ms == [] then [] else AllLines(ms[..|ms| - 1]) + MessageLines(ms[|ms| - 1])
  }

  lemma {:induction false} StreamIsTerminated(ms: seq<Message>)
    ensures Stream(ms) == Terminated(AllLines(ms))
  {
    if ms != [] {
      hide MessageLines;
      var n := |ms| - 1;
      StreamIsTerminated(ms[..n]);
      TerminatedAppend(AllLines(ms[..n]), MessageLines(ms[n]));
    }
  }

  // What one more message adds to what should be heard.
  lemma SentStep(ms: seq<Message>)
    requires ms != []
    ensures var n := |ms| - 1;
            var m, id := ms[n], NextId(LastId(ms[..n]), ms[n]);
            && LastId(ms) == id && LastRetry(ms) == NextRetry(LastRetry(ms[..n]), m)
            && Sent(ms) == Sent(ms[..n]) + [Event(Kind(m), DataText(m.data), id)]
            && AllLines(ms) == AllLines(ms[..n]) + MessageLines(m)
  {
    hide Kind, DataText, MessageLines;
  }

  lemma {:induction false} AllLinesNoBreak(ms: seq<Message>)
    requires forall i | 0 <= i < |ms| :: Clean(ms[i])
    ensures Unbroken(AllLines(ms))
  {
    if ms == [] {
      EmptyNoBreak();
    } else {
      hide AllLines, MessageLines, Clean, Unbroken, Sent, NextId, LastId;
      var n := |ms| - 1;
      SentStep(ms);
      AllLinesNoBreak(ms[..n]);
      MessageLinesNoBreak(ms[n]);
      UnbrokenAppend(AllLines(ms[..n]), MessageLines(ms[n]));
    }
  }

  lemma NothingSent()
    ensures Feed(FRESH, AllLines([])) == Client("", "", LastId([]), LastRetry([]), Sent([]))
  {
  }

  lemma {:induction false} AllHeard(ms: seq<Message>)
    requires forall i | 0 <= i < |ms| :: '\0' !in ms[i].id
    ensures Feed(FRESH, AllLines(ms)) == Client("", "", LastId(ms), LastRetry(ms), Sent(ms))
  {
    hide *;
    if ms == [] {
      NothingSent();
    } else {
      var n := |ms| - 1;
      SentStep(ms);
      AllHeard(ms[..n]);
      FeedAppend(FRESH, AllLines(ms[..n]), MessageLines(ms[n]));
      MessageHeard(Feed(FRESH, AllLines(ms[..n])), ms[n]);
    }
  }

  lemma NothingPending()
    ensures Lines("") == []
  {
  }

  lemma UnmarkedInterpret(s: string)
    requires Unmarked(s)
    ensures Interpret(s) == Feed(FRESH, Lines(s))
  {
    hide Feed, Lines;
  }

  predicate Unmarked(l: string) { l != "" ==> l[0] != '\U{FEFF}' }

  lemma DataLinesUnmarked(ps: seq<string>)
    ensures forall i | 0 <= i < |DataLines(ps)| :: Unmarked(DataLines(ps)[i])
  {
    if ps != [] {
      DataLinesUnmarked(ps[..|ps| - 1]);
    }
  }

  lemma HeadLinesUnmarked(m: Message)
    ensures forall i | 0 <= i < |HeadLines(m)| :: Unmarked(HeadLines(m)[i])
  {
    hide IntText;
  }

  lemma MessageLinesUnmarked(m: Message)
    ensures forall i | 0 <= i < |MessageLines(m)| :: Unmarked(MessageLines(m)[i])
  {
    var data := DataLines(SplitLines(DataText(m.data)));
    DataLinesUnmarked(SplitLines(DataText(m.data)));
    HeadLinesUnmarked(m);
    assert Unmarked("");
    hide Unmarked, HeadLines, DataLines, DataText, SplitLines;
    assert MessageLines(m) == HeadLines(m) + data + [""];
  }

  lemma {:induction false} AllLinesUnmarked(ms: seq<Message>)
    ensures forall i | 0 <= i < |AllLines(ms)| :: Unmarked(AllLines(ms)[i])
  {
    if ms != [] {
      hide Unmarked, MessageLines;
      AllLinesUnmarked(ms[..|ms| - 1]);
      MessageLinesUnmarked(ms[|ms| - 1]);
    }
  }

  lemma {:induction false} NoMark(ls: seq<string>)
    requires forall i | 0 <= i < |ls| :: Unmarked(ls[i])
    ensures Unmarked(Terminated(ls))
  {
    if ls != [] {
      NoMark(ls[..|ls| - 1]);
    }
  }

  lemma CleanIds(ms: seq<Message>)
    requires forall i | 0 <= i < |ms| :: Clean(ms[i])
    ensures forall i | 0 <= i < |ms| :: '\0' !in ms[i].id
  {
    hide DataText, NoBreak;
  }

  // Every stream of clean messages is heard as it was sent: the types, the data and the carried ids.
  lemma StreamHeard(ms: seq<Message>)
    requires forall i | 0 <= i < |ms| :: Clean(ms[i])
    ensures Interpret(Stream(ms)) == Client("", "", LastId(ms), LastRetry(ms), Sent(ms))
  {
    hide *;
    CleanIds(ms);
    StreamIsTerminated(ms);
    AllLinesNoBreak(ms);
    LinesOfTerminated(AllLines(ms), "");
    assert Stream(ms) + "" == Stream(ms) && AllLines(ms) + [] == AllLines(ms);
    NothingPending();
    AllLinesUnmarked(ms);
    NoMark(AllLines(ms));
    UnmarkedInterpret(Stream(ms));
    AllHeard(ms);
  }

  // ---------------------------------------------------------------- and no other stream is

  predicate Pure(id: string) { NoBreak(id) && '\0' !in id }

  predicate EventOk(e: Event) { NoBreak(e.kind) && '\r' !in e.data && Pure(e.id) }

  predicate ClientOk(c: Client) {
    NoBreak(c.kind) && '\r' !in c.data && Pure(c.id) && forall i | 0 <= i < |c.events| :: EventOk(c.events[i])
  }

  lemma ProcessFieldKeeps(c: Client, name: string, value: string)
    requires ClientOk(c) && NoBreak(value)
    ensures ClientOk(ProcessField(c, name, value))
  {
    assert '\r' !in value;
    assert '\r' !in c.data + value + "\n";
  }

  lemma ProcessLineKeeps(c: Client, line: string)
    requires ClientOk(c) && NoBreak(line)
    ensures ClientOk(ProcessLine(c, line))
  {
    hide ProcessField;
    if line != "" && line[0] != ':' {
      var i := IndexOf(line, ':', 0);
      if i == |line| {
        ProcessFieldKeeps(c, line, "");
      } else {
        var value := line[i + 1..];
        ProcessFieldKeeps(c, line[..i], if value != [] && value[0] == ' ' then value[1..] else value);
      }
    }
  }

  lemma {:induction false} FeedKeeps(c: Client, ls: seq<string>)
    requires ClientOk(c) && Unbroken(ls)
    ensures ClientOk(Feed(c, ls))
  {
    if ls != [] {
      hide ClientOk, NoBreak, ProcessLine;
      FeedKeeps(c, ls[..|ls| - 1]);
      ProcessLineKeeps(Feed(c, ls[..|ls| - 1]), ls[|ls| - 1]);
    }
  }

  lemma {:induction false} SentAt(ms: seq<Message>, i: nat)
    requires i < |ms|
    ensures |Sent(ms)| == |ms| && Sent(ms)[i].kind == Kind(ms[i]) && Sent(ms)[i].data == DataText(ms[i].data)
    ensures ms[i].id != "" ==> Sent(ms)[i].id == ms[i].id
  {
    hide Kind, DataText;
    if i < |ms| - 1 {
      SentAt(ms[..|ms| - 1], i);
    } else if i > 0 {
      SentAt(ms[..i], i - 1);
    }
  }

  lemma CleanWhenOk(m: Message, e: Event)
    requires EventOk(e) && e.kind == Kind(m) && e.data == DataText(m.data) && (m.id != "" ==> e.id == m.id)
    ensures Clean(m)
  {
    hide DataText;
  }

  // A stream is heard as it was sent exactly when no data holds a carriage return, no event or id a
  // line end, and no id a NUL.
  lemma HeardIffClean(ms: seq<Message>)
    ensures Interpret(Stream(ms)).events == Sent(ms) <==> forall i | 0 <= i < |ms| :: Clean(ms[i])
  {
    hide *;
    if forall i | 0 <= i < |ms| :: Clean(ms[i]) {
      StreamHeard(ms);
    } else if Interpret(Stream(ms)).events == Sent(ms) {
      InterpretKeeps(Stream(ms));
      forall i | 0 <= i < |ms| ensures Clean(ms[i]) {
        SentAt(ms, i);
        CleanWhenOk(ms[i], Sent(ms)[i]);
      }
    }
  }

  lemma InterpretKeeps(s: string)
    ensures forall i | 0 <= i < |Interpret(s).events| :: EventOk(Interpret(s).events[i])
  {
    hide Feed, Lines, EventOk;
    FeedKeeps(FRESH, Lines(if s != [] && s[0] == '\U{FEFF}' then s[1..] else s));
  }

  // ---------------------------------------------------------------- dictionaries fit on one line

  lemma NoBreakCons(c: char, k: string)
    requires !IsBreak(c) && NoBreak(k)
    ensures NoBreak(Cons(c, k))
  {
    assert forall i | 0 < i < |Cons(c, k)| :: Cons(c, k)[i] == k[i - 1];
  }

  lemma ItemNoBreak(i: StrItem, k: string)
    requires ItemOk(i) && NoBreak(k)
    ensures NoBreak(PutItem(i, k))
  {
    match i
    case Raw(c) => NoBreakCons(c, k);
    case Short(c) =>
      NoBreakCons(c, k);
      NoBreakCons('\\', Cons(c, k));
    case Unit(h) =>
      NoBreakCons('u', h + k);
      NoBreakCons('\\', Cons('u', h + k));
    case Pair(h, l) =>
      NoBreakCons('u', l + k);
      var low := Cons('\\', Cons('u', l + k));
      NoBreakCons('\\', Cons('u', l + k));
      NoBreakCons('u', h + low);
      NoBreakCons('\\', Cons('u', h + low));
  }

  lemma {:induction false} TailNoBreak(items: seq<StrItem>, k: string)
    requires ItemsOk(items) && NoBreak(k)
    ensures NoBreak(PutTail(items, k))
  {
    if items == [] {
      NoBreakCons('"', k);
    } else {
      hide NoBreak, PutItem;
      TailNoBreak(items[1..], k);
      ItemNoBreak(items[0], PutTail(items[1..], k));
    }
  }

  lemma Together(a: string, b: string)
    requires NoBreak(a) && NoBreak(b)
    ensures NoBreak(a + b)
  {
  }

  lemma ScalarNoBreak(j: Json, k: string)
    requires JsonOk(j) && !j.Group? && NoBreak(k)
    ensures NoBreak(Put(j, k))
  {
    match j
    case Null => Together("null", k);
    case True => Together("true", k);
    case False => Together("false", k);
    case Num(neg, d) =>
      Together(d, k);
      NoBreakCons('-', d + k);
    case Str(items) =>
      TailNoBreak(items, k);
      NoBreakCons('"', PutTail(items, k));
    case Group(_, _, _) =>
  }

  // Both styles leave no line end in the text, so the printer never splits a dictionary.
  lemma {:induction false} DumpsNoBreak(v: Value, st: Style, k: string)
    requires NoBreak(k)
    ensures NoBreak(Put(Encode(v, st), k))
    decreases v, 1
  {
    EmptyNoBreak();
    hide NoBreak, JsonOk, EncodeAll, EncodeFields, EncodeText, Put, IntJson;
    match v
    case VArr(items) =>
      if items != [] {
        ItemsNoBreak(items, [], st, k);
      }
      GroupNoBreak(false, EncodeAll(items, [], st), k);
    case VObj(fs) =>
      if fs != [] {
        FieldsNoBreak(fs, [], st, k);
      }
      GroupNoBreak(true, EncodeFields(fs, [], st), k);
    case _ =>
      ScalarNoBreak(Encode(v, st), k);
  }

  lemma GroupNoBreak(isObj: bool, es: seq<Entry>, k: string)
    requires NoBreak(k) && (es != [] ==> NoBreak(PutEntries(isObj, es, k)))
    ensures NoBreak(Put(Group(isObj, [], es), k))
  {
    hide NoBreak, PutEntries;
    if es == [] {
      NoBreakCons(Closing(isObj), k);
      assert [] + Cons(Closing(isObj), k) == Cons(Closing(isObj), k);
      NoBreakCons(Opening(isObj), Cons(Closing(isObj), k));
    } else {
      NoBreakCons(Opening(isObj), PutEntries(isObj, es, k));
    }
  }

  lemma {:induction false} ItemsNoBreak(items: seq<Value>, pre: string, st: Style, k: string)
    requires items != [] && AllWs(pre) && NoBreak(pre) && NoBreak(k)
    ensures NoBreak(PutEntries(false, EncodeAll(items, pre, st), k))
    decreases items, 0
  {
    var es, rest := EncodeAll(items, pre, st), EncodeAll(items[1..], st.Gap(), st);
    assert es[0] == Entry(None, pre, Encode(items[0], st), []) && es[1..] == rest;
    hide NoBreak, Encode, EncodeAll, Put;
    var more: string;
    if |items| == 1 {
      more := Cons(Closing(false), k);
      NoBreakCons(Closing(false), k);
    } else {
      ItemsNoBreak(items[1..], st.Gap(), st, k);
      more := Cons(',', PutEntries(false, rest, k));
      NoBreakCons(',', PutEntries(false, rest, k));
    }
    assert [] + more == more;
    DumpsNoBreak(items[0], st, more);
    Together(pre, Put(Encode(items[0], st), more));
  }

  lemma {:induction false} FieldsNoBreak(fs: seq<Field>, pre: string, st: Style, k: string)
    requires fs != [] && AllWs(pre) && NoBreak(pre) && NoBreak(k)
    ensures NoBreak(PutEntries(true, EncodeFields(fs, pre, st), k))
    decreases fs, 0
  {
    var es, rest := EncodeFields(fs, pre, st), EncodeFields(fs[1..], st.Gap(), st);
    var tag := Label(pre, EncodeText(fs[0].key, st.ascii), []);
    assert es[0] == Entry(Some(tag), st.Gap(), Encode(fs[0].value, st), []) && es[1..] == rest;
    hide NoBreak, Encode, EncodeFields, EncodeText, Put, PutTail;
    var more: string;
    if |fs| == 1 {
      more := Cons(Closing(true), k);
      NoBreakCons(Closing(true), k);
    } else {
      FieldsNoBreak(fs[1..], st.Gap(), st, k);
      more := Cons(',', PutEntries(true, rest, k));
      NoBreakCons(',', PutEntries(true, rest, k));
    }
    assert [] + more == more;
    DumpsNoBreak(fs[0].value, st, more);
    var value := st.Gap() + Put(Encode(fs[0].value, st), more);
    Together(st.Gap(), Put(Encode(fs[0].value, st), more));
    NoBreakCons(':', value);
    assert [] + Cons(':', value) == Cons(':', value);
    TailNoBreak(tag.name, Cons(':', value));
    NoBreakCons('"', PutTail(tag.name, Cons(':', value)));
    Together(pre, Cons('"', PutTail(tag.name, Cons(':', value))));
  }

  // A dictionary arrives as one data line whose text loads as that dictionary again.
  lemma DictHeard(ms: seq<Message>, i: nat)
    requires i < |ms| && ms[i].data.Dict? && Plain(VObj(ms[i].data.fields))
    requires forall k | 0 <= k < |ms| :: Clean(ms[k])
    ensures |Interpret(Stream(ms)).events| == |ms|
    ensures Loads(Interpret(Stream(ms)).events[i].data) == Some(VObj(ms[i].data.fields))
  {
    hide Interpret, Stream, Sent, Clean, Loads, Plain, Dumps;
    StreamHeard(ms);
    SentAt(ms, i);
    LoadsDumps(VObj(ms[i].data.fields), DEFAULT_STYLE);
  }

  // So a dictionary's data is always clean.
  lemma DictClean(m: Message)
    requires m.data.Dict?
    ensures '\r' !in DataText(m.data) && SplitLines(DataText(m.data)) == [DataText(m.data)]
  {
    hide Put, Encode, SplitLines;
    DumpsNoBreak(VObj(m.data.fields), DEFAULT_STYLE, []);
    OneLine(DataText(m.data));
  }

  lemma {:induction false} OneLine(s: string)
    requires NoBreak(s)
    ensures SplitLines(s) == [s] && '\r' !in s
  {
    if s != [] {
      OneLine(s[..|s| - 1]);
      assert s[..|s| - 1] + [s[|s| - 1]] == s;
    }
  }

  // ---------------------------------------------------------------- what a reader of a stream hears

  // The event has the message's type, or the default one, and its text, or a text that loads as its dictionary.
  predicate Carries(e: Event, m: Message) {
    && e.kind == (if m.event == "" then "message" else m.event)
    && match m.data
       case Plainly(text) => e.data == text
       case Dict(fs) => Plain(VObj(fs)) ==> Loads(e.data) == Some(VObj(fs))
  }

  lemma DataIs(d: Data)
    ensures match d
            case Plainly(text) => DataText(d) == text
            case Dict(fs) => Plain(VObj(fs)) ==> Loads(DataText(d)) == Some(VObj(fs))
  {
    if d.Dict? && Plain(VObj(d.fields)) {
      LoadsDumps(VObj(d.fields), DEFAULT_STYLE);
    }
  }

  lemma SentCarries(ms: seq<Message>, i: nat)
    requires i < |ms|
    ensures |Sent(ms)| == |ms| && Carries(Sent(ms)[i], ms[i])
  {
    SentAt(ms, i);
    DataIs(ms[i].data);
    hide Sent, DataText, Plain, Loads;
  }

  lemma EndsClean(e: string)
    ensures Clean(DONE) && Clean(ErrorMessage(e))
  {
    DictClean(ErrorMessage(e));
    hide DataText, SplitLines;
    EmptyNoBreak();
    assert DONE.data.Plainly?;
    DataIs(DONE.data);
  }

  lemma ErrorPlain(e: string)
    ensures Plain(VObj([Field("error", VStr(e))]))
  {
  }

  lemma {:induction false} AllCarried(ms: seq<Message>)
    requires forall i | 0 <= i < |ms| :: Clean(ms[i])
    ensures var heard := Interpret(Stream(ms)).events;
            |heard| == |ms| && forall i | 0 <= i < |ms| :: Carries(heard[i], ms[i])
  {
    hide *;
    StreamHeard(ms);
    SentLength(ms);
    forall i | 0 <= i < |ms| ensures Carries(Sent(ms)[i], ms[i]) {
      SentCarries(ms, i);
    }
  }

  lemma SentLength(ms: seq<Message>)
    ensures |Sent(ms)| == |ms|
  {
    hide Sent;
    if ms != [] {
      SentAt(ms, 0);
    } else {
      NothingSent();
    }
  }

  lemma YieldedIs(ms: seq<Message>, failure: Option<string>, closing: Option<nat>)
    ensures var sent := Yielded(ms, failure, closing);
            var n := if closing.Some? && closing.value < |ms| then closing.value else |ms|;
            && n <= |sent| <= n + 1 && (forall i | 0 <= i < n :: sent[i] == ms[i])
            && (|sent| > n <==> n == |ms| && (failure.Some? || closing != Some(n)))
            && (|sent| > n ==> sent[n] == if failure.Some? then ErrorMessage(failure.value) else DONE)
  {
  }

  lemma EndsCarried(h: Event)
    ensures Carries(h, DONE) ==> h.kind == "done" && h.data == "done"
    ensures forall e | Carries(h, ErrorMessage(e)) ::
              h.kind == "error" && Loads(h.data) == Some(VObj([Field("error", VStr(e))]))
  {
    hide Loads, Plain;
    forall e ensures Plain(VObj([Field("error", VStr(e))])) {
      ErrorPlain(e);
    }
  }

  // What is heard of a stream of clean messages: each of them up to its closing, and then, unless it was
  // closed before its last one, the failure's text in an error event, or else, unless it was closed, "done".
  lemma {:induction false} StreamIsHeard(ms: seq<Message>, failure: Option<string>, closing: Option<nat>)
    requires forall i | 0 <= i < |ms| :: Clean(ms[i])
    ensures var heard := Interpret(Stream(Yielded(ms, failure, closing))).events;
            var n := if closing.Some? && closing.value < |ms| then closing.value else |ms|;
            && n <= |heard| <= n + 1 && (forall i | 0 <= i < n :: Carries(heard[i], ms[i]))
            && (|heard| > n <==> n == |ms| && (failure.Some? || closing != Some(n)))
            && (|heard| > n && failure.Some? ==>
                  heard[n].kind == "error" && Loads(heard[n].data) == Some(VObj([Field("error", VStr(failure.value))])))
            && (|heard| > n && failure.None? ==> heard[n].kind == "done" && heard[n].data == "done")
  {
    hide *;
    var sent := Yielded(ms, failure, closing);
    var heard := Interpret(Stream(sent)).events;
    YieldedIs(ms, failure, closing);
    EndsClean(if failure.Some? then failure.value else "");
    assert forall i | 0 <= i < |sent| :: Clean(sent[i]);
    AllCarried(sent);
    if heard != [] {
      EndsCarried(heard[|heard| - 1]);
    }
  }
}
