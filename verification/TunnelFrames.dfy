/**
 The event-stream frames of a tunnel subscription: how a body is cut into frames, how a frame is read, and what
 it asks for.
 */
module TunnelFrames {
  import opened Prelude

  // ---- Values from outside -----------------------------------------------------------

  /** The `error` property of a parsed value: absent, of another shape, or with its two strings. */
  datatype ErrorField = NoError | BadError | ErrorOf(code: string, message: string)

  /** A parsed value; `ok` is None unless it is an object with a boolean property of that name. */
  datatype Value = Value(text: string, ok: Option<bool>, error: ErrorField)

  /** JSON.parse; None when it throws. */
  datatype Parser = Parser(parse: string -> Option<Value>)

  datatype Failure =
    | MalformedDoneFrame | InvalidDoneFrame | MalformedDataFrame
    | SubscriptionError(code: Option<string>, message: string)
    | StreamClosedEarly | ReadFailed | EmptyBody | FetchFailed | BadStatus | BadRequest

  // ---- Frames ---------------------------------------------------------------------------

  predicate IsSpace(c: char) {
    var u := c as int;
    9 <= u <= 13 || u == 32 || u == 160 || u == 0x1680 || 0x2000 <= u <= 0x200a ||
    u == 0x2028 || u == 0x2029 || u == 0x202f || u == 0x205f || u == 0x3000 || u == 0xfeff
  }

  function Trim(s: string): string {
    if s == "" then ""
    else if IsSpace(s[0]) then Trim(s[1..])
    else if IsSpace(s[|s| - 1]) then Trim(s[..|s| - 1])
    else s
  }

  function Lines(s: string): (lines: seq<string>)
    ensures lines != []
  {
    if s == "" then [""]
    else
      var rest := Lines(s[1..]);
      if s[0] == '\n' then [""] + rest else [[s[0]] + rest[0]] + rest[1..]
  }

  /** The two fields a frame may set; the last line of each kind wins. */
  datatype Fields = Fields(event: string, data: string)

  function ReadFields(lines: seq<string>): Fields {
    if lines == [] then Fields("", "")
    else
      var f := ReadFields(lines[..|lines| - 1]);
      var line := lines[|lines| - 1];
      if "event:" <= line then f.(event := Trim(line[6..]))
      else if "data:" <= line then f.(data := Trim(line[5..]))
      else f
  }

  datatype Action = Deliver(value: Value) | Finish | Fail(failure: Failure) | Ignore

  predicate IsDoneFrame(v: Value) {
    v.ok.Some? && !v.error.BadError?
  }

  /** parseDoneFrame. */
  function DoneAction(parsed: Option<Value>): Action {
    if parsed.None? then Fail(MalformedDoneFrame)
    else if !IsDoneFrame(parsed.value) then Fail(InvalidDoneFrame)
    else if parsed.value.ok == Some(true) then Finish
    else match parsed.value.error
         case ErrorOf(code, message) => Fail(SubscriptionError(Some(code), message))
         case _ => Fail(SubscriptionError(None, "subscription error"))
  }

  /** What a non-empty frame asks for. */
  function ActionOf(p: Parser, frame: string): Action {
    var f := ReadFields(Lines(frame));
    if f.event == "done" then DoneAction(p.parse(f.data))
    else if f.event == "" then
      match p.parse(f.data)
      case None => Fail(MalformedDataFrame)
      case Some(v) => Deliver(v)
    else Ignore
  }

  /** indexOf("\n\n"). */
  function SeparatorAt(buf: string): (at: Option<nat>)
    ensures at.Some? ==> at.value + 2 <= |buf| && buf[at.value] == '\n' && buf[at.value + 1] == '\n'
    ensures at.Some? ==> forall i :: 0 <= i < at.value ==> !(buf[i] == '\n' && buf[i + 1] == '\n')
    ensures at.None? ==> forall i :: 0 <= i < |buf| - 1 ==> !(buf[i] == '\n' && buf[i + 1] == '\n')
  {
    if |buf| < 2 then None
    else if buf[0] == '\n' && buf[1] == '\n' then Some(0)
    else
      var later := SeparatorAt(buf[1..]);
      if later.Some? then Some(later.value + 1) else None
  }

  /** The complete frames of a buffer, and what is left behind the last separator. */
  function Frames(buf: string): seq<string>
    decreases |buf|
  {
    var at := SeparatorAt(buf);
    if at.None? then [] else [buf[..at.value]] + Frames(buf[at.value + 2..])
  }

  function Remainder(buf: string): string
    decreases |buf|
  {
    var at := SeparatorAt(buf);
    if at.None? then buf else Remainder(buf[at.value + 2..])
  }

  lemma {:induction false} FrameStep(buf: string)
    ensures match SeparatorAt(buf)
            case None => Frames(buf) == [] && Remainder(buf) == buf
            case Some(at) =>
              Frames(buf) == [buf[..at]] + Frames(buf[at + 2..]) && Remainder(buf) == Remainder(buf[at + 2..])
  {
    hide SeparatorAt;
  }

  lemma {:induction false} SeparatorOfConcat(a: string, b: string)
    requires SeparatorAt(a).Some?
    ensures SeparatorAt(a + b) == SeparatorAt(a)
  {
    hide SeparatorAt;
    var at := SeparatorAt(a).value;
    var whole := SeparatorAt(a + b);
    assert forall i :: 0 <= i < |a| ==> (a + b)[i] == a[i];
    assert (a + b)[at] == '\n' && (a + b)[at + 1] == '\n';
    assert whole.Some? && whole.value == at;
  }

  /** Separators are found at the same places whether or not more text follows: cutting is stable under chunking. */
  lemma {:induction false} FramesOfConcat(a: string, b: string)
    ensures Frames(a + b) == Frames(a) + Frames(Remainder(a) + b)
    ensures Remainder(a + b) == Remainder(Remainder(a) + b)
    decreases |a|
  {
    hide SeparatorAt, Frames, Remainder;
    var at := SeparatorAt(a);
    FrameStep(a);
    if at.Some? {
      SeparatorOfConcat(a, b);
      FrameStep(a + b);
      assert (a + b)[..at.value] == a[..at.value];
      assert (a + b)[at.value + 2..] == a[at.value + 2..] + b;
      FramesOfConcat(a[at.value + 2..], b);
    }
  }

  lemma {:induction false} RemainderIsCut(buf: string)
    ensures SeparatorAt(Remainder(buf)).None?
    decreases |buf|
  {
    if SeparatorAt(buf).Some? {
      RemainderIsCut(buf[SeparatorAt(buf).value + 2..]);
    }
  }

  // ---- What the cutting means ------------------------------------------------------------------

  function Join(lines: seq<string>): string
    requires lines != []
  {
    if |lines| == 1 then lines[0] else lines[0] + "\n" + Join(lines[1..])
  }

  /** The lines of a frame, put back together, are the frame; none holds a newline. */
  lemma {:induction false} LinesRejoin(s: string)
    ensures Join(Lines(s)) == s
    ensures forall line :: line in Lines(s) ==> '\n' !in line
  {
    if s != "" {
      LinesRejoin(s[1..]);
      var rest, all := Lines(s[1..]), Lines(s);
      if s[0] == '\n' {
        assert all[1..] == rest;
      } else {
        assert all[1..] == rest[1..];
        assert rest == [rest[0]] + rest[1..];
      }
    }
  }

  predicate AllSpace(s: string) {
    forall c :: c in s ==> IsSpace(c)
  }

  /** Trimming takes off white space on both sides, all of it and nothing else. */
  lemma {:induction false} TrimMeaning(s: string) returns (before: string, behind: string)
    ensures s == before + Trim(s) + behind && AllSpace(before) && AllSpace(behind)
    ensures Trim(s) != "" ==> !IsSpace(Trim(s)[0]) && !IsSpace(Trim(s)[|Trim(s)| - 1])
  {
    hide IsSpace;
    before, behind := "", "";
    if s != "" && IsSpace(s[0]) {
      var b, e := TrimMeaning(s[1..]);
      assert s == [s[0]] + s[1..];
      before, behind := [s[0]] + b, e;
      Regroup([s[0]], b, Trim(s[1..]));
      Regroup([s[0]], b + Trim(s[1..]), e);
    } else if s != "" && IsSpace(s[|s| - 1]) {
      var b, e := TrimMeaning(s[..|s| - 1]);
      assert s == s[..|s| - 1] + [s[|s| - 1]];
      before, behind := b, e + [s[|s| - 1]];
      Regroup(b + Trim(s[..|s| - 1]), e, [s[|s| - 1]]);
    } else {
      assert "" + s + "" == s;
    }
  }

  /** Line `i` is the last one with the prefix. */
  ghost predicate IsLastWith(lines: seq<string>, prefix: string, i: int) {
    0 <= i < |lines| && prefix <= lines[i] && forall j :: i < j < |lines| ==> !(prefix <= lines[j])
  }

  /** The field's value: what follows the prefix on its last line, trimmed; empty when no line has it. */
  ghost predicate IsField(lines: seq<string>, prefix: string, value: string) {
    || (exists i :: IsLastWith(lines, prefix, i) && value == Trim(lines[i][|prefix|..]))
    || (value == "" && forall i :: 0 <= i < |lines| ==> !(prefix <= lines[i]))
  }

  ghost predicate Field(frame: string, prefix: string, value: string) {
    IsField(Lines(frame), prefix, value)
  }

  lemma {:induction false} FieldsAreLastLines(lines: seq<string>)
    ensures IsField(lines, "event:", ReadFields(lines).event)
    ensures IsField(lines, "data:", ReadFields(lines).data)
  {
    if lines != [] {
      var init, line := lines[..|lines| - 1], lines[|lines| - 1];
      assert lines == init + [line];
      FieldsAreLastLines(init);
      assert "event:" <= line ==> line[0] == 'e';
      assert "data:" <= line ==> line[0] == 'd';
      FieldOneMore(init, line, "event:", ReadFields(init).event);
      FieldOneMore(init, line, "data:", ReadFields(init).data);
    }
  }

  lemma {:induction false} FieldOneMore(init: seq<string>, line: string, prefix: string, value: string)
    requires IsField(init, prefix, value)
    ensures IsField(init + [line], prefix, if prefix <= line then Trim(line[|prefix|..]) else value)
  {
    hide Trim;
    var lines := init + [line];
    assert forall i :: 0 <= i < |init| ==> lines[i] == init[i];
    if prefix <= line {
      assert IsLastWith(lines, prefix, |init|);
    } else if i :| IsLastWith(init, prefix, i) && value == Trim(init[i][|prefix|..]) {
      assert IsLastWith(lines, prefix, i);
    }
  }

  lemma {:induction false} FieldIsUnique(lines: seq<string>, prefix: string, a: string, b: string)
    requires IsField(lines, prefix, a) && IsField(lines, prefix, b)
    ensures a == b
  {
    hide Trim;
  }

  // ---- What a frame means ----------------------------------------------------------------------------

  /** A done frame that says the subscription succeeded. */
  ghost predicate EndsWell(p: Parser, frame: string) {
    && frame != "" && Field(frame, "event:", "done")
    && exists data :: Field(frame, "data:", data) && p.parse(data).Some? &&
                      p.parse(data).value.ok == Some(true) && p.parse(data).value.error != BadError
  }

  /** A frame that fails the subscription, and how: a done frame that is malformed or says so, or unparsable data. */
  ghost predicate EndsBadly(p: Parser, frame: string, failure: Failure) {
    && frame != ""
    && exists data :: Field(frame, "data:", data) && FailsOn(p.parse(data), frame, failure)
  }

  ghost predicate FailsOn(parsed: Option<Value>, frame: string, failure: Failure) {
    || (Field(frame, "event:", "") && parsed == None && failure == MalformedDataFrame)
    || (Field(frame, "event:", "done") && parsed == None && failure == MalformedDoneFrame)
    || (Field(frame, "event:", "done") && parsed.Some? && failure == InvalidDoneFrame &&
        (parsed.value.ok == None || parsed.value.error == BadError))
    || (Field(frame, "event:", "done") && parsed.Some? && parsed.value.ok == Some(false) &&
        ((parsed.value.error == NoError && failure == SubscriptionError(None, "subscription error")) ||
         (parsed.value.error.ErrorOf? &&
          failure == SubscriptionError(Some(parsed.value.error.code), parsed.value.error.message))))
  }

  /** A frame without an event name that carries the value. */
  ghost predicate Carries(p: Parser, frame: string, value: Value) {
    && frame != "" && Field(frame, "event:", "")
    && exists data :: Field(frame, "data:", data) && p.parse(data) == Some(value)
  }

  /** A frame with any other event name. */
  ghost predicate SaysNothing(frame: string) {
    exists event :: Field(frame, "event:", event) && event != "" && event != "done"
  }

  /** Every non-empty frame is one of these, as its last event and data lines say. */
  lemma {:induction false} ActionMeaning(p: Parser, frame: string)
    requires frame != ""
    ensures ActionOf(p, frame) == Finish <==> EndsWell(p, frame)
    ensures forall failure :: ActionOf(p, frame) == Fail(failure) <==> EndsBadly(p, frame, failure)
    ensures forall value :: ActionOf(p, frame) == Deliver(value) <==> Carries(p, frame, value)
    ensures ActionOf(p, frame) == Ignore <==> SaysNothing(frame)
  {
    hide Field, Lines, ReadFields, FailsOn, DoneAction;
    TheFields(frame);
    DoneMeaning(p.parse(ReadFields(Lines(frame)).data));
    assert Field(frame, "event:", ReadFields(Lines(frame)).event);
    assert Field(frame, "data:", ReadFields(Lines(frame)).data);
    forall failure ensures ActionOf(p, frame) == Fail(failure) <==> EndsBadly(p, frame, failure) {
      FailureMeaning(p, frame, failure);
    }
  }

  lemma {:induction false} FailureMeaning(p: Parser, frame: string, failure: Failure)
    requires frame != ""
    ensures ActionOf(p, frame) == Fail(failure) <==> EndsBadly(p, frame, failure)
  {
    hide Field, Lines, ReadFields;
    TheFields(frame);
    var f := ReadFields(Lines(frame));
    assert Field(frame, "event:", f.event) && Field(frame, "data:", f.data);
    assert EndsBadly(p, frame, failure) <==> FailsOn(p.parse(f.data), frame, failure);
    if f.event == "done" {
      assert !Field(frame, "event:", "");
      var parsed := p.parse(f.data);
      assert parsed.Some? && parsed.value.ok.Some? ==>
          parsed.value.ok == Some(if parsed.value.ok.value then true else false);
    } else {
      assert !Field(frame, "event:", "done");
    }
  }

  lemma {:induction false} DoneMeaning(parsed: Option<Value>)
    ensures DoneAction(parsed) == Finish <==>
            parsed.Some? && parsed.value.ok == Some(true) && parsed.value.error != BadError
    ensures DoneAction(parsed).Finish? || DoneAction(parsed).Fail?
  {}

  lemma {:induction false} TheFields(frame: string)
    ensures var f := ReadFields(Lines(frame));
            && (forall event :: Field(frame, "event:", event) <==> event == f.event)
            && (forall data :: Field(frame, "data:", data) <==> data == f.data)
  {
    hide IsField, Lines, ReadFields;
    var f := ReadFields(Lines(frame));
    FieldsAreLastLines(Lines(frame));
    forall event | Field(frame, "event:", event) ensures event == f.event {
      FieldIsUnique(Lines(frame), "event:", event, f.event);
    }
    forall data | Field(frame, "data:", data) ensures data == f.data {
      FieldIsUnique(Lines(frame), "data:", data, f.data);
    }
  }

  // ---- Where the frames are cut ------------------------------------------------------------------------

  /** The frames, each followed by its separator, and the rest are the buffer. */
  function Rejoin(frames: seq<string>): string {
    if frames == [] then "" else frames[0] + "\n\n" + Rejoin(frames[1..])
  }

  lemma {:induction false} FramesRejoin(buf: string)
    ensures buf == Rejoin(Frames(buf)) + Remainder(buf)
    ensures forall i, frame :: 0 <= i < |Frames(buf)| && frame == Frames(buf)[i] ==>
              SeparatorAt(frame + "\n\n") == Some(|frame|)
    ensures SeparatorAt(Remainder(buf)).None?
    decreases |buf|
  {
    hide SeparatorAt, Frames, Remainder;
    RemainderIsCut(buf);
    FrameStep(buf);
    var at := SeparatorAt(buf);
    if at.Some? {
      var frame, rest := buf[..at.value], buf[at.value + 2..];
      FramesRejoin(rest);
      FirstFrame(buf);
      assert Frames(buf)[1..] == Frames(rest);
      Regroup(frame + "\n\n", Rejoin(Frames(rest)), Remainder(rest));
    }
  }

  lemma {:induction false} FirstFrame(buf: string)
    requires SeparatorAt(buf).Some?
    ensures var at := SeparatorAt(buf).value;
            && SeparatorAt(buf[..at] + "\n\n") == Some(at)
            && buf == (buf[..at] + "\n\n") + buf[at + 2..]
  {
    hide SeparatorAt;
    var at := SeparatorAt(buf).value;
    var cut := buf[..at + 2];
    assert buf[at..at + 2] == "\n\n";
    assert cut == buf[..at] + "\n\n";
    assert forall i :: 0 <= i < |cut| ==> cut[i] == buf[i];
    assert cut[at] == '\n' && cut[at + 1] == '\n';
  }

  lemma Regroup(a: string, b: string, c: string)
    ensures a + (b + c) == (a + b) + c
  {}
}
