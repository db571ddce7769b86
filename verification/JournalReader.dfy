/**
 The journal's line reader: fixed-size reads into a reused buffer, lines assembled across reads, and
 lines over the limit dropped. Whatever the pattern of short reads, it yields what splitting the
 content at newlines yields, minus the oversized lines.
 */
module JournalReader {
  import opened Prelude

  type Byte = b: int | 0 <= b < 256

  const NEWLINE: Byte := 10
  const MAX_JOURNAL_LINE_BYTES := 8 * 1024 * 1024
  const READ_BYTES := 64 * 1024

  // ---- Plain splitting ------------------------------------------------------------

  /** The lines of `s`, always at least one: the text after the last newline, possibly empty, is a line. */
  function Split(s: seq<Byte>): (lines: seq<seq<Byte>>)
    ensures lines != []
  {
    if s == [] then [[]]
    else
      var init := Split(s[..|s| - 1]);
      if s[|s| - 1] == NEWLINE then init + [[]]
      else init[..|init| - 1] + [init[|init| - 1] + [s[|s| - 1]]]
  }

  function Join(lines: seq<seq<Byte>>): seq<Byte>
    requires lines != []
  {
    if |lines| == 1 then lines[0] else Join(lines[..|lines| - 1]) + [NEWLINE] + lines[|lines| - 1]
  }

  /** Splitting is the inverse of joining with newlines, and no line holds a newline. */
  lemma {:induction false} SplitIsJoinInverse(s: seq<Byte>)
    ensures Join(Split(s)) == s
    ensures forall i :: 0 <= i < |Split(s)| ==> 10 !in Split(s)[i]
  {
    LinesHoldNoNewline(s);
    if s != [] {
      var init, b := s[..|s| - 1], s[|s| - 1];
      assert s == init + [b];
      SplitIsJoinInverse(init);
      hide Join;
      var lines := Split(init);
      if b == NEWLINE {
        JoinNewline(lines);
      } else {
        assert lines == lines[..|lines| - 1] + [lines[|lines| - 1]];
        JoinByte(lines[..|lines| - 1], lines[|lines| - 1], b);
      }
    }
  }

  lemma {:induction false} LinesHoldNoNewline(s: seq<Byte>)
    ensures forall i :: 0 <= i < |Split(s)| ==> NEWLINE !in Split(s)[i]
  {
    if s != [] {
      LinesHoldNoNewline(s[..|s| - 1]);
    }
  }

  lemma {:induction false} JoinNewline(lines: seq<seq<Byte>>)
    requires lines != []
    ensures Join(lines + [[]]) == Join(lines) + [NEWLINE]
  {
    hide Join;
    JoinLast(lines, []);
    EmptyTail(Join(lines) + [NEWLINE]);
  }

  lemma {:induction false} JoinByte(init: seq<seq<Byte>>, last: seq<Byte>, b: Byte)
    ensures Join(init + [last + [b]]) == Join(init + [last]) + [b]
  {
    hide Join;
    JoinLast(init, last);
    JoinLast(init, last + [b]);
    if init != [] {
      Regroup(Join(init) + [NEWLINE], last, [b]);
    }
  }

  lemma EmptyTail(a: seq<Byte>)
    ensures a + [] == a
  {}

  lemma Regroup(a: seq<Byte>, b: seq<Byte>, c: seq<Byte>)
    ensures (a + b) + c == a + (b + c)
  {}

  lemma {:induction false} JoinLast(init: seq<seq<Byte>>, last: seq<Byte>)
    ensures Join(init + [last]) == if init == [] then last else Join(init) + [NEWLINE] + last
  {
    assert (init + [last])[..|init|] == init;
  }

  /** The lines the reader keeps. */
  function Short(lines: seq<seq<Byte>>): seq<seq<Byte>> {
    if lines == [] then []
    else
      var init := Short(lines[..|lines| - 1]);
      if |lines[|lines| - 1]| <= MAX_JOURNAL_LINE_BYTES then init + [lines[|lines| - 1]] else init
  }

  /** Of every line on its own: it is kept exactly when it has at most 8 MiB; order and repetitions stay. */
  lemma {:induction false} ShortMeaning(a: seq<seq<Byte>>, x: seq<Byte>, b: seq<seq<Byte>>)
    ensures Short(a + [x] + b) == Short(a) + (if |x| <= 8388608 then [x] else []) + Short(b)
  {
    if b == [] {
      assert a + [x] + b == a + [x] && (a + [x])[..|a|] == a;
    } else {
      var init := b[..|b| - 1];
      assert (a + [x] + b)[..|a + [x] + b| - 1] == a + [x] + init;
      ShortMeaning(a, x, init);
    }
  }

  function Flatten(parts: seq<seq<Byte>>): seq<Byte> {
    if parts == [] then [] else Flatten(parts[..|parts| - 1]) + parts[|parts| - 1]
  }

  lemma FlattenNothing()
    ensures Flatten([]) == [] && Texts([]) == []
  {}

  lemma {:induction false} FlattenLast(init: seq<seq<Byte>>, last: seq<Byte>)
    ensures Flatten(init + [last]) == Flatten(init) + last
  {
    assert (init + [last])[..|init|] == init;
  }

  // ---- One line under assembly ----------------------------------------------------------

  /** The bytes of each buffered part. */
  function Texts(parts: seq<array<Byte>>): seq<seq<Byte>>
    reads parts
  {
    seq(|parts|, i requires 0 <= i < |parts| reads parts => parts[i][..])
  }

  class JournalLine {
    var parts: seq<array<Byte>>
    var bytes: nat
    var oversized: bool
    var oversizeCalls: nat   // how often onOversize was called
    ghost var line: seq<Byte>  // everything consumed since the last complete line

    /** What is buffered is the line so far, unless it is already too long, in which case nothing is. */
    ghost predicate Valid()
      reads this, parts
    {
      && (oversized <==> |line| > MAX_JOURNAL_LINE_BYTES)
      && Flatten(Texts(parts)) == (if oversized then [] else line)
      && (!oversized ==> bytes == |line|)
    }

    constructor ()
      ensures Valid() && line == [] && oversizeCalls == 0 && parts == []
    {
      parts, bytes, oversized, oversizeCalls, line := [], 0, false, 0, [];
    }

    /** The bytes held in memory never exceed the limit. */
    lemma BufferIsBounded()
      requires Valid()
      ensures |Flatten(Texts(parts))| <= MAX_JOURNAL_LINE_BYTES
    {}

    /**
     Take the segment buffer[start..end]. An unfinished line keeps copies of its bytes, never the buffer
     itself, so that the next read may overwrite it.
     */
    method Consume(buffer: array<Byte>, start: nat, end: nat, complete: bool) returns (text: Option<seq<Byte>>)
      requires Valid() && start <= end <= buffer.Length
      modifies this
      ensures Valid() && forall p :: p in parts ==> p in old(parts) || fresh(p)
      ensures line == if complete then [] else old(line) + buffer[start..end]
      ensures text == if complete && |old(line) + buffer[start..end]| <= MAX_JOURNAL_LINE_BYTES
                      then Some(old(line) + buffer[start..end]) else None
      ensures oversizeCalls == old(oversizeCalls) +
                if |old(line)| <= MAX_JOURNAL_LINE_BYTES < |old(line) + buffer[start..end]| then 1 else 0
    {
      hide Flatten;
      FlattenNothing();
      line := line + buffer[start..end];
      if !oversized && bytes + (end - start) > MAX_JOURNAL_LINE_BYTES {
        oversized := true;
        parts := [];
        oversizeCalls := oversizeCalls + 1;
      }
      if oversized {
        if complete { Reset(); }
        return None;
      }
      if !complete {
        var own := CopyOf(buffer, start, end);
        FlattenLast(Texts(parts), own[..]);
        assert Texts(parts + [own]) == Texts(parts) + [own[..]];
        parts := parts + [own];
        bytes := bytes + (end - start);
        return None;
      }
      if parts == [] {
        text := Some(buffer[start..end]);
        assert line == buffer[start..end];
      } else {
        FlattenLast(Texts(parts), buffer[start..end]);
        text := Some(Flatten(Texts(parts) + [buffer[start..end]]));
      }
      Reset();
    }

    method Reset()
      modifies this
      ensures Valid() && line == [] && oversizeCalls == old(oversizeCalls) && parts == []
    {
      parts, bytes, oversized, line := [], 0, false, [];
    }
  }

  /** Buffer.from: bytes of its own. */
  method CopyOf(buffer: array<Byte>, start: nat, end: nat) returns (own: array<Byte>)
    requires start <= end <= buffer.Length
    ensures fresh(own) && own[..] == buffer[start..end]
  {
    own := new Byte[end - start](i requires 0 <= i < end - start reads buffer => buffer[start + i]);
  }

  // ---- Reading ------------------------------------------------------------------------------

  /** readSync: fills a prefix of the buffer with up to `want` bytes of the file; how many is up to the OS. */
  method ReadSync(content: seq<Byte>, buffer: array<Byte>, want: nat, offset: nat) returns (bytes: nat)
    requires offset + want <= |content| && want <= buffer.Length
    modifies buffer
    ensures bytes <= want
    ensures buffer[..bytes] == content[offset..offset + bytes]
  {
    bytes :| 0 <= bytes <= want;
    var i := 0;
    while i < bytes
      invariant 0 <= i <= bytes
      invariant buffer[..i] == content[offset..offset + i]
    {
      buffer[i] := content[offset + i];
      i := i + 1;
    }
  }

  /** chunk.indexOf(10, start) over the first `bytes` of the buffer; None stands for -1. */
  method IndexOfNewline(buffer: array<Byte>, bytes: nat, start: nat) returns (at: Option<nat>)
    requires start <= bytes <= buffer.Length
    ensures at.Some? ==> start <= at.value < bytes && buffer[at.value] == NEWLINE && NEWLINE !in buffer[start..at.value]
    ensures at.None? ==> NEWLINE !in buffer[start..bytes]
  {
    var i := start;
    while i < bytes
      invariant start <= i <= bytes
      invariant NEWLINE !in buffer[start..i]
    {
      if buffer[i] == NEWLINE { return Some(i); }
      i := i + 1;
    }
    at := None;
  }

  /**
   After consuming the prefix `read`: its complete lines are `done` and its last line is under assembly;
   the short ones among `done` have been yielded and every oversized line has been reported once.
   */
  ghost predicate Consumed(read: seq<Byte>, done: seq<seq<Byte>>, line: seq<Byte>, yielded: seq<seq<Byte>>, calls: nat)
  {
    && Split(read) == done + [line]
    && yielded == Short(done)
    && calls + |Short(done + [line])| == |done| + 1
  }

  lemma {:induction false} SplitExtend(read: seq<Byte>, done: seq<seq<Byte>>, line: seq<Byte>, more: seq<Byte>)
    requires Split(read) == done + [line] && NEWLINE !in more
    ensures Split(read + more) == done + [line + more]
  {
    hide Split;
    if more == [] {
      EmptyTail(read);
      EmptyTail(line);
    } else {
      var init, b := more[..|more| - 1], more[|more| - 1];
      assert more == init + [b];
      SplitExtend(read, done, line, init);
      SplitByte(read + init, done, line + init, b);
      Regroup(read, init, [b]);
      Regroup(line, init, [b]);
    }
  }

  lemma {:induction false} SplitByte(s: seq<Byte>, done: seq<seq<Byte>>, line: seq<Byte>, b: Byte)
    requires Split(s) == done + [line] && b != NEWLINE
    ensures Split(s + [b]) == done + [line + [b]]
  {
    assert (s + [b])[..|s|] == s;
    assert (done + [line])[..|done|] == done;
  }

  lemma {:induction false} ConsumeMore(read: seq<Byte>, done: seq<seq<Byte>>, line: seq<Byte>,
                                       yielded: seq<seq<Byte>>, calls: nat, more: seq<Byte>)
    requires Consumed(read, done, line, yielded, calls) && NEWLINE !in more
    ensures var calls' := calls + if |line| <= MAX_JOURNAL_LINE_BYTES < |line + more| then 1 else 0;
            Consumed(read + more, done, line + more, yielded, calls')
  {
    SplitExtend(read, done, line, more);
    assert (done + [line])[..|done|] == done && (done + [line + more])[..|done|] == done;
  }

  lemma {:induction false} ConsumeNewline(read: seq<Byte>, done: seq<seq<Byte>>, line: seq<Byte>,
                                          yielded: seq<seq<Byte>>, calls: nat)
    requires Consumed(read, done, line, yielded, calls)
    ensures Consumed(read + [NEWLINE], done + [line], [],
                     if |line| <= MAX_JOURNAL_LINE_BYTES then yielded + [line] else yielded, calls)
  {
    assert (read + [NEWLINE])[..|read|] == read;
    assert (done + [line])[..|done|] == done;
    assert (done + [line] + [[]])[..|done| + 1] == done + [line];
  }

  lemma NothingConsumed()
    ensures Consumed([], [], [], [], 0)
  {}

  lemma {:induction false} LastLine(read: seq<Byte>, done: seq<seq<Byte>>, line: seq<Byte>, yielded: seq<seq<Byte>>,
                                    calls: nat)
    requires Consumed(read, done, line, yielded, calls)
    ensures Short(Split(read)) == if |line| <= MAX_JOURNAL_LINE_BYTES then yielded + [line] else yielded
    ensures calls + |Short(Split(read))| == |Split(read)|
  {
    hide Split;
    assert (done + [line])[..|done|] == done;
  }

  /** One segment of a chunk, ended by a newline or by the end of the chunk, moves the consumed prefix forward. */
  lemma {:induction false} ConsumeSegment(content: seq<Byte>, offset: nat, chunk: seq<Byte>, start: nat, end: nat,
                                          complete: bool,
                       done: seq<seq<Byte>>, line: seq<Byte>, yielded: seq<seq<Byte>>, calls: nat)
    returns (done': seq<seq<Byte>>)
    requires offset + |chunk| <= |content| && chunk == content[offset..offset + |chunk|]
    requires start <= end <= |chunk| && NEWLINE !in chunk[start..end]
    requires if complete then end < |chunk| && chunk[end] == NEWLINE else end == |chunk|
    requires Consumed(content[..offset + start], done, line, yielded, calls)
    ensures var grown := line + chunk[start..end];
            var calls' := calls + if |line| <= MAX_JOURNAL_LINE_BYTES < |grown| then 1 else 0;
            Consumed(content[..offset + Min(end + 1, |chunk|)], done', if complete then [] else grown,
                     if complete && |grown| <= MAX_JOURNAL_LINE_BYTES then yielded + [grown] else yielded, calls')
  {
    hide Consumed;
    var read, segment := content[..offset + start], chunk[start..end];
    var grown := line + segment;
    var calls' := calls + if |line| <= MAX_JOURNAL_LINE_BYTES < |grown| then 1 else 0;
    ConsumeMore(read, done, line, yielded, calls, segment);
    assert content[..offset + end] == read + segment;
    done' := done;
    if complete {
      ConsumeNewline(read + segment, done, grown, yielded, calls');
      assert content[..offset + end + 1] == content[..offset + end] + [NEWLINE];
      done' := done + [grown];
    }
  }

  /**
   Yields exactly the lines of what was read, in order, minus those over the limit, each of which is
   reported exactly once. Everything is read unless a read came back empty before the end.
   */
  method ReadJournalLines(content: seq<Byte>)
    returns (yielded: seq<seq<Byte>>, oversizeCalls: nat, bytesRead: nat, cutShort: bool)
    ensures bytesRead <= |content| && (!cutShort ==> content[..bytesRead] == content)
    ensures yielded == Short(Split(content[..bytesRead]))
    ensures oversizeCalls + |yielded| == |Split(content[..bytesRead])|
  {
    hide Consumed, Split, Short, Flatten, Texts, JournalLine.Valid;
    var size := |content|;
    NothingConsumed();
    var buffer := new Byte[READ_BYTES];
    var line := new JournalLine();
    var offset := 0;
    ghost var done: seq<seq<Byte>> := [];
    yielded, cutShort := [], false;
    while offset < size
      invariant 0 <= offset <= size
      invariant line.Valid() && fresh(line) && fresh(buffer) && buffer !in line.parts
      invariant Consumed(content[..offset], done, line.line, yielded, line.oversizeCalls)
    {
      var bytes := ReadSync(content, buffer, Min(READ_BYTES, size - offset), offset);
      if bytes == 0 {
        cutShort := true;
        break;
      }
      yielded, done := ConsumeChunk(content, offset, buffer, bytes, line, yielded, done);
      offset := offset + bytes;
    }
    bytesRead := offset;
    LastLine(content[..offset], done, line.line, yielded, line.oversizeCalls);
    assert line.line + [] == line.line;
    var empty := new Byte[0];
    assert empty[0..0] == [];
    var last := line.Consume(empty, 0, 0, true);
    if last.Some? { yielded := yielded + [last.value]; }
    oversizeCalls := line.oversizeCalls;
  }

  /** The inner loop: hand every segment of one chunk to the line under assembly. */
  method ConsumeChunk(ghost content: seq<Byte>, ghost offset: nat, buffer: array<Byte>, bytes: nat, line: JournalLine,
                      before: seq<seq<Byte>>, ghost done0: seq<seq<Byte>>)
    returns (yielded: seq<seq<Byte>>, ghost done: seq<seq<Byte>>)
    requires line.Valid() && buffer !in line.parts && 0 < bytes <= buffer.Length && offset + bytes <= |content|
    requires buffer[..bytes] == content[offset..offset + bytes]
    requires Consumed(content[..offset], done0, line.line, before, line.oversizeCalls)
    modifies line
    ensures line.Valid() && buffer !in line.parts
    ensures Consumed(content[..offset + bytes], done, line.line, yielded, line.oversizeCalls)
  {
    hide Consumed, Flatten, Texts, JournalLine.Valid;
    yielded, done := before, done0;
    var start := 0;
    while start < bytes
      invariant 0 <= start <= bytes + 1
      invariant line.Valid() && buffer !in line.parts
      invariant Consumed(content[..offset + Min(start, bytes)], done, line.line, yielded, line.oversizeCalls)
    {
      var newline := IndexOfNewline(buffer, bytes, start);
      var end := newline.GetOr(bytes);
      ghost var chunk := buffer[..bytes];
      assert chunk[start..end] == buffer[start..end];
      assert newline.Some? ==> chunk[end] == NEWLINE;
      done := ConsumeSegment(content, offset, chunk, start, end, newline.Some?, done, line.line, yielded,
                             line.oversizeCalls);
      var text := line.Consume(buffer, start, end, newline.Some?);
      if text.Some? { yielded := yielded + [text.value]; }
      start := end + 1;
    }
  }
}
