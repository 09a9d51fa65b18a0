/** The durable log sink: lines are numbered, buffered, and rotated into segment files. Writing a segment may
    fail, and then the buffer is kept for the next attempt. */
module LogSink {

  datatype Stream = Stdout | Stderr

  datatype Line = Line(sequence: nat, stream: Stream, message: string, at: int)

  // A segment file: its name carries the first and the last sequence number.
  datatype Segment = Segment(first: nat, last: nat, lines: seq<Line>)

  // What a file holds: the lines of a segment, or what a write that failed part-way has left.
  datatype File = Whole(lines: seq<Line>) | Torn

  // `files` is the deployment's directory, by first and last sequence number.
  datatype Sink = Sink(sequence: nat, buffer: seq<Line>, segments: seq<Segment>, files: map<(nat, nat), File>,
                       threshold: nat, storage: bool)

  // What the file system does with a segment during the call, if one is attempted.
  datatype Disk = Writes | Refuses | Tears

  datatype Call =
    | WriteLine(stream: Stream, message: string, at: int, disk: Disk)
    | Flush(disk: Disk)

  function Opened(threshold: nat, storage: bool): Sink {
    Sink(0, [], [], map[], if threshold == 0 then 500 else threshold, storage)
  }

  function Pushed(s: Sink, c: Call): Sink
    requires c.WriteLine?
  {
    s.(sequence := s.sequence + 1, buffer := s.buffer + [Line(s.sequence + 1, c.stream, c.message, c.at)])
  }

  // Whether rotating fails; then the buffer is kept.
  predicate RotationFails(s: Sink, disk: Disk) { s.buffer != [] && s.storage && disk != Writes }

  function NameOf(buffer: seq<Line>): (nat, nat)
    requires buffer != []
  {
    (buffer[0].sequence, buffer[|buffer| - 1].sequence)
  }

  function Rotated(s: Sink, disk: Disk): Sink {
    if s.buffer == [] then s
    else if !s.storage then s.(buffer := [])
    else
      var name := NameOf(s.buffer);
      match disk
      case Writes =>
        s.(segments := s.segments + [Segment(name.0, name.1, s.buffer)], files := s.files[name := Whole(s.buffer)], buffer := [])
      case Refuses => s
      case Tears => s.(files := s.files[name := Torn])
  }

  predicate Due(s: Sink) { |s.buffer| >= s.threshold }

  predicate Fails(s: Sink, c: Call) {
    match c
    case WriteLine(_, _, _, disk) => Due(Pushed(s, c)) && RotationFails(Pushed(s, c), disk)
    case Flush(disk) => RotationFails(s, disk)
  }

  function After(s: Sink, c: Call): Sink {
    match c
    case WriteLine(_, _, _, disk) => if Due(Pushed(s, c)) then Rotated(Pushed(s, c), disk) else Pushed(s, c)
    case Flush(disk) => Rotated(s, disk)
  }

  function Run(s: Sink, calls: seq<Call>): Sink {
    if calls == [] then s else After(Run(s, calls[..|calls| - 1]), calls[|calls| - 1])
  }

  // ---------------------------------------------------------------- what was logged, by itself

  // The lines logged by the calls, numbered from 1 in order.
  function Logged(calls: seq<Call>): seq<Line> {
    if calls == [] then []
    else
      var before, c := Logged(calls[..|calls| - 1]), calls[|calls| - 1];
      if c.Flush? then before else before + [Line(|before| + 1, c.stream, c.message, c.at)]
  }

  lemma {:induction false} LoggedIsNumbered(calls: seq<Call>)
    ensures forall i :: 0 <= i < |Logged(calls)| ==> Logged(calls)[i].sequence == i + 1
  {
    if calls != [] {
      LoggedIsNumbered(calls[..|calls| - 1]);
    }
  }

  function Stored(segments: seq<Segment>): seq<Line> {
    if segments == [] then [] else Stored(segments[..|segments| - 1]) + segments[|segments| - 1].lines
  }

  // How many of the calls failed.
  function Failures(s: Sink, calls: seq<Call>): nat {
    if calls == [] then 0
    else
      var before := calls[..|calls| - 1];
      Failures(s, before) + if Fails(Run(s, before), calls[|calls| - 1]) then 1 else 0
  }

  ghost predicate Suffix(s: seq<Line>, t: seq<Line>) { |s| <= |t| && s == t[|t| - |s|..] }

  // A segment is named after its first and its last line and holds as many lines as its name says.
  ghost predicate Named(s: Segment) {
    && s.lines != []
    && s.first == s.lines[0].sequence
    && s.last == s.lines[|s.lines| - 1].sequence
    && s.last == s.first + |s.lines| - 1
  }

  // The names tile 1..n: each segment begins right after the one before it.
  ghost predicate Contiguous(segments: seq<Segment>) {
    && (forall i :: 0 <= i < |segments| ==> Named(segments[i]))
    && (segments != [] ==> segments[0].first == 1)
    && (forall i :: 0 < i < |segments| ==> segments[i].first == segments[i - 1].last + 1)
    && (|Stored(segments)| == if segments == [] then 0 else segments[|segments| - 1].last)
  }

  // Every completed segment is in its file, whole.
  ghost predicate Filed(segments: seq<Segment>, files: map<(nat, nat), File>) {
    forall i :: 0 <= i < |segments| ==>
      (segments[i].first, segments[i].last) in files && files[(segments[i].first, segments[i].last)] == Whole(segments[i].lines)
  }

  ghost predicate Inv(s: Sink, lines: seq<Line>) {
    && s.threshold >= 1
    && s.sequence == |lines|
    && (forall i :: 0 <= i < |lines| ==> lines[i].sequence == i + 1)
    && (s.storage ==> Stored(s.segments) + s.buffer == lines)
    && (!s.storage ==> s.segments == [])
    && Suffix(s.buffer, lines)
    && Contiguous(s.segments)
    && Filed(s.segments, s.files)
  }

  lemma PushKeeps(s: Sink, c: Call, lines: seq<Line>)
    requires c.WriteLine? && Inv(s, lines)
    ensures Inv(Pushed(s, c), lines + [Line(|lines| + 1, c.stream, c.message, c.at)])
  {
    var line := Line(|lines| + 1, c.stream, c.message, c.at);
    assert Stored(s.segments) + (s.buffer + [line]) == Stored(s.segments) + s.buffer + [line];
    assert (lines + [line])[|lines| - |s.buffer|..] == lines[|lines| - |s.buffer|..] + [line];
  }

  lemma ContiguousNext(segments: seq<Segment>, next: Segment)
    requires Contiguous(segments) && Named(next) && next.first == |Stored(segments)| + 1
    ensures Contiguous(segments + [next]) && Stored(segments + [next]) == Stored(segments) + next.lines
  {
    assert (segments + [next])[..|segments|] == segments;
  }

  // A name that begins past what is stored is the name of no completed segment.
  lemma NewName(segments: seq<Segment>, files: map<(nat, nat), File>, name: (nat, nat), file: File)
    requires Contiguous(segments) && Filed(segments, files) && name.0 == |Stored(segments)| + 1
    ensures Filed(segments, files[name := file])
  {
    forall i | 0 <= i < |segments|
      ensures segments[i].first < name.0
    {
      assert Named(segments[i]);
      if i < |segments| - 1 {
        NamesAscend(segments, i, |segments| - 1);
      }
    }
  }

  lemma RotateKeeps(s: Sink, disk: Disk, lines: seq<Line>)
    requires Inv(s, lines)
    ensures Inv(Rotated(s, disk), lines)
    ensures RotationFails(s, disk) || Rotated(s, disk).buffer == []
    ensures RotationFails(s, disk) ==> Rotated(s, disk).buffer == s.buffer
  {
    if s.buffer != [] && s.storage {
      TailIsNamed(Stored(s.segments), s.buffer, lines);
      var name := NameOf(s.buffer);
      if disk == Writes {
        NewName(s.segments, s.files, name, Whole(s.buffer));
        WriteKeeps(s, lines, Segment(name.0, name.1, s.buffer), Rotated(s, disk));
      } else {
        NewName(s.segments, s.files, name, Torn);
      }
    }
  }

  lemma FiledNext(segments: seq<Segment>, files: map<(nat, nat), File>, next: Segment)
    requires Filed(segments, files) && (next.first, next.last) in files && files[(next.first, next.last)] == Whole(next.lines)
    ensures Filed(segments + [next], files)
  {
  }

  lemma WriteKeeps(s: Sink, lines: seq<Line>, next: Segment, s': Sink)
    requires Inv(s, lines) && s.storage && s.buffer != [] && Named(next) && next.first == |Stored(s.segments)| + 1
    requires next.lines == s.buffer && Filed(s.segments, s'.files)
    requires (next.first, next.last) in s'.files && s'.files[(next.first, next.last)] == Whole(next.lines)
    requires s' == s.(segments := s.segments + [next], files := s'.files, buffer := [])
    ensures Inv(s', lines)
  {
    ContiguousNext(s.segments, next);
    FiledNext(s.segments, s'.files, next);
  }

  lemma TailIsNamed(stored: seq<Line>, b: seq<Line>, lines: seq<Line>)
    requires b != [] && stored + b == lines && forall i :: 0 <= i < |lines| ==> lines[i].sequence == i + 1
    ensures Named(Segment(b[0].sequence, b[|b| - 1].sequence, b)) && b[0].sequence == |stored| + 1
  {
    assert b[0] == lines[|stored|] && b[|b| - 1] == lines[|stored| + |b| - 1];
  }

  lemma CallKeeps(s: Sink, c: Call, lines: seq<Line>)
    requires Inv(s, lines)
    ensures c.WriteLine? ==> Inv(After(s, c), lines + [Line(|lines| + 1, c.stream, c.message, c.at)])
    ensures c.Flush? ==> Inv(After(s, c), lines)
    ensures !Fails(s, c) ==> |After(s, c).buffer| < s.threshold
    ensures |After(s, c).buffer| <= |s.buffer| + 1
    ensures c.Flush? && !Fails(s, c) ==> After(s, c).buffer == []
  {
    match c
    case WriteLine(stream, message, at, disk) =>
      PushKeeps(s, c, lines);
      RotateKeeps(Pushed(s, c), disk, lines + [Line(|lines| + 1, stream, message, at)]);
    case Flush(disk) =>
      RotateKeeps(s, disk, lines);
  }

  lemma {:induction false} RunKeeps(empty: Sink, calls: seq<Call>)
    requires Inv(empty, []) && empty.buffer == []
    ensures var s := Run(empty, calls);
            && Inv(s, Logged(calls))
            && s.threshold == empty.threshold && s.storage == empty.storage
            && |s.buffer| < s.threshold + Failures(empty, calls)
  {
    if calls != [] {
      var before := calls[..|calls| - 1];
      RunKeeps(empty, before);
      CallKeeps(Run(empty, before), calls[|calls| - 1], Logged(before));
    }
  }

  /** With a storage directory, after any calls and any failures, the segments written so far followed by the
      buffer are exactly the lines logged, in order; segment names tile 1..n without gap or overlap. */
  lemma NoLineIsLost(threshold: nat, calls: seq<Call>)
    ensures var s := Run(Opened(threshold, true), calls);
            && Stored(s.segments) + s.buffer == Logged(calls)
            && s.sequence == |Logged(calls)|
            && Contiguous(s.segments)
  {
    RunKeeps(Opened(threshold, true), calls);
  }

  /** The buffer is shorter than the threshold unless the last call failed, and never longer than the threshold
      by more than the number of failed calls. */
  lemma BufferIsBounded(threshold: nat, storage: bool, calls: seq<Call>, c: Call)
    ensures var empty := Opened(threshold, storage);
            var s := Run(empty, calls + [c]);
            && (!Fails(Run(empty, calls), c) ==> |s.buffer| < s.threshold)
            && (!Fails(Run(empty, calls), c) && c.Flush? ==> s.buffer == [])
            && (Fails(Run(empty, calls), c) && c.WriteLine? ==> |s.buffer| >= s.threshold)
            && |s.buffer| < s.threshold + Failures(empty, calls + [c])
  {
    BoundedAfter(Opened(threshold, storage), threshold, storage, calls, c);
  }

  lemma BoundedAfter(empty: Sink, threshold: nat, storage: bool, calls: seq<Call>, c: Call)
    requires empty == Opened(threshold, storage)
    ensures var s := Run(empty, calls + [c]);
            && (!Fails(Run(empty, calls), c) ==> |s.buffer| < s.threshold)
            && (!Fails(Run(empty, calls), c) && c.Flush? ==> s.buffer == [])
            && (Fails(Run(empty, calls), c) && c.WriteLine? ==> |s.buffer| >= s.threshold)
            && |s.buffer| < s.threshold + Failures(empty, calls + [c])
  {
    var all := calls + [c];
    assert all[..|all| - 1] == calls;
    RunKeeps(empty, calls);
    RunKeeps(empty, all);
    CallKeeps(Run(empty, calls), c, Logged(calls));
  }

  /** Whatever writes fail, and whatever they leave behind, every completed segment stays whole in its file. */
  lemma SegmentsStayWhole(threshold: nat, calls: seq<Call>, i: nat)
    requires i < |Run(Opened(threshold, true), calls).segments|
    ensures var s := Run(Opened(threshold, true), calls);
            var name := (s.segments[i].first, s.segments[i].last);
            name in s.files && s.files[name] == Whole(s.segments[i].lines)
  {
    RunKeeps(Opened(threshold, true), calls);
  }

  /** No two segments share a file, so none overwrites another. */
  lemma SegmentNamesDiffer(threshold: nat, calls: seq<Call>, i: nat, j: nat)
    requires i < j < |Run(Opened(threshold, true), calls).segments|
    ensures var segments := Run(Opened(threshold, true), calls).segments;
            segments[i].first <= segments[i].last < segments[j].first <= segments[j].last
  {
    RunKeeps(Opened(threshold, true), calls);
    NamesAscend(Run(Opened(threshold, true), calls).segments, i, j);
  }

  lemma {:induction false} NamesAscend(segments: seq<Segment>, i: nat, j: nat)
    requires Contiguous(segments) && i < j < |segments|
    ensures segments[i].first <= segments[i].last < segments[j].first <= segments[j].last
  {
    if i + 1 < j {
      NamesAscend(segments, i, j - 1);
    }
  }

  // ---------------------------------------------------------------- the object

  class DurableLogSink {
    const threshold: nat
    const storage: bool
    const redact: string -> string
    var sequence: nat
    var buffer: seq<Line>
    var segments: seq<Segment>
    var files: map<(nat, nat), File>

    function State(): Sink
      reads this
    {
      Sink(sequence, buffer, segments, files, threshold, storage)
    }

    constructor (threshold: nat, storage: bool, redact: string -> string)
      ensures State() == Opened(threshold, storage) && this.redact == redact
      ensures this.threshold == if threshold == 0 then 500 else threshold
    {
      this.threshold := if threshold == 0 then 500 else threshold;
      this.storage, this.redact := storage, redact;
      sequence, buffer, segments, files := 0, [], [], map[];
    }

    method RotateSegment(disk: Disk) returns (ok: bool)
      modifies this
      ensures State() == Rotated(old(State()), disk)
      ensures ok == !RotationFails(old(State()), disk)
    {
      if buffer == [] {
        return true;
      }
      var first, last := buffer[0].sequence, buffer[|buffer| - 1].sequence;
      if storage {
        if disk == Tears {
          files := files[(first, last) := Torn];
        }
        if disk != Writes {
          return false;
        }
        files := files[(first, last) := Whole(buffer)];
        segments := segments + [Segment(first, last, buffer)];
      }
      buffer := [];
      ok := true;
    }

    method Flush(disk: Disk) returns (ok: bool)
      modifies this
      ensures State() == After(old(State()), Call.Flush(disk))
      ensures ok == !Fails(old(State()), Call.Flush(disk))
    {
      if buffer == [] {
        return true;
      }
      ok := RotateSegment(disk);
    }

    method WriteLine(stream: Stream, message: string, now: int, disk: Disk) returns (ok: bool)
      modifies this
      ensures State() == After(old(State()), Call.WriteLine(stream, redact(message), now, disk))
      ensures ok == !Fails(old(State()), Call.WriteLine(stream, redact(message), now, disk))
    {
      sequence := sequence + 1;
      buffer := buffer + [Line(sequence, stream, redact(message), now)];
      ok := true;
      if |buffer| >= threshold {
        ok := RotateSegment(disk);
      }
    }
  }
}
