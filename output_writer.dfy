/** The output-file writer of Models/Extensions.cs (`StartOutputWriter`,
    `CreateFileStream`, `CloseC`) and `DirectoryRoleMembersResultsToList`.

    The writer drains one queue of records. Each record is routed by its
    runtime type to one of six output files; a file is created the first
    time a record of its kind arrives, every record is serialised into its
    file and counted, every hundredth record of a kind flushes that file,
    and once the queue is drained every file that was opened gets the
    trailer `"meta": { "count": <n>, "type": <kind> }` and is closed.

    Files and JSON are not modelled as bytes: the writer produces a log of
    events, one per step that reaches a file. */
module OutputWriter {
  import opened Wrappers
  import opened Text
  import opened BloodHound
  import Graph
  import GroupMembers
  import TitleCase

  /** The six output files, one per `JsonTextWriter` variable of the writer. */
  datatype OutputKind = Computers | Domains | Groups | Users | Sessions | Applications

  /** `nameof(computers)` and so on: the file name, the name of the array the
      file holds, and the `type` written into the trailer. */
  function FileName(k: OutputKind): string {
    match k
    case Computers => "computers"
    case Domains => "domains"
    case Groups => "groups"
    case Users => "users"
    case Sessions => "sessions"
    case Applications => "applications"
  }

  /** The `switch` on the record's runtime type. Directory roles are groups
      and go to the groups file; any other subclass of `JsonBase` matches no
      case and is skipped. */
  function Route(r: JsonBase): Option<OutputKind> {
    match r
    case ComputerRecord(_) => Some(Computers)
    case GroupRecord(_) => Some(Groups)
    case DomainRecord(_) => Some(Domains)
    case SessionRecord(_) => Some(Sessions)
    case UserRecord(_) => Some(Users)
    case ApplicationRecord(_) => Some(Applications)
    case OtherRecord(_) => None
  }

  /** An open output file: where it is written and the name of the array
      property its records go into. */
  datatype OutputFile = OutputFile(path: string, containerKey: string)

  /** `CreateFileStream`: the output folder (`Startup.OutputFolderLocation`)
      and then the file name must be neither null nor white space; the file is
      the folder path with the file name appended, and it opens with an
      object holding one array named after the file. */
  function CreateFileStream(folder: Option<string>, fileName: Option<string>): (r: Result<OutputFile>)
    ensures r.Ok? <==> !IsNullOrWhiteSpace(folder) && !IsNullOrWhiteSpace(fileName)
    ensures IsNullOrWhiteSpace(folder) ==> r == Throws(EnsureFailed("OutputFolderLocation"))
    ensures !IsNullOrWhiteSpace(folder) && IsNullOrWhiteSpace(fileName) ==>
      r == Throws(EnsureFailed("fileName"))
    ensures r.Ok? ==> r.value.containerKey == fileName.value
    ensures r.Ok? ==> r.value.path == folder.value + fileName.value
  {
    if IsNullOrWhiteSpace(folder) then Throws(EnsureFailed("OutputFolderLocation"))
    else if IsNullOrWhiteSpace(fileName) then Throws(EnsureFailed("fileName"))
    else Ok(OutputFile(folder.value + fileName.value, fileName.value))
  }

  /** What the writer does to its files, in order. */
  datatype Event =
    | Opened(kind: OutputKind, file: OutputFile)        // CreateFileStream
    | Serialized(kind: OutputKind, record: JsonBase)    // serializer.Serialize
    | Flushed(kind: OutputKind)                         // jsonTextWriter.Flush
    | Closed(kind: OutputKind, count: nat, typeName: string)  // CloseC: trailer, then Close

  /** One writer variable (null until the first record of its kind) and its
      counter. */
  datatype Sink = Sink(writer: Option<OutputFile>, count: nat)

  type Sinks = map<OutputKind, Sink>

  predicate Complete(sinks: Sinks) {
    forall k: OutputKind :: k in sinks
  }

  /** The writer's state between two records; `fault` is the exception that
      ended the writer task, if any. */
  datatype WriterState = WriterState(sinks: Sinks, log: seq<Event>, fault: Option<Exception>)

  const InitialSinks: Sinks := map[
    Computers := Sink(None, 0), Domains := Sink(None, 0), Groups := Sink(None, 0),
    Users := Sink(None, 0), Sessions := Sink(None, 0), Applications := Sink(None, 0)]

  lemma InitialSinksComplete()
    ensures Complete(InitialSinks)
  {
    forall k: OutputKind ensures k in InitialSinks {
      match k
      case Computers =>
      case Domains =>
      case Groups =>
      case Users =>
      case Sessions =>
      case Applications =>
    }
  }

  /** The writer's own file names always pass the file-name check. */
  lemma FileNameNotBlank(k: OutputKind)
    ensures !IsNullOrWhiteSpace(Some(FileName(k)))
  {
    assert !IsWhiteSpace(FileName(k)[0]);
  }

  /** `SerializeAndFlush`: serialise, count, and flush on every multiple of 100. */
  function SerializeAndFlush(st: WriterState, k: OutputKind, file: OutputFile, r: JsonBase): WriterState
    requires Complete(st.sinks)
  {
    var n := st.sinks[k].count + 1;
    st.(sinks := st.sinks[k := Sink(Some(file), n)],
        log := st.log + [Serialized(k, r)] + (if n % 100 == 0 then [Flushed(k)] else []))
  }

  /** One pass of the `foreach`: a faulted writer consumes nothing more; a
      routed record first opens its file if that is still null. */
  function Consume(folder: Option<string>, st: WriterState, r: JsonBase): (st': WriterState)
    requires Complete(st.sinks)
    ensures Complete(st'.sinks)
  {
    if st.fault.Some? || Route(r).None? then st
    else
      var k := Route(r).value;
      match st.sinks[k].writer
      case Some(file) => SerializeAndFlush(st, k, file, r)
      case None =>
        match CreateFileStream(folder, Some(FileName(k)))
        case Throws(e) => st.(fault := Some(e))
        case Ok(file) => SerializeAndFlush(st.(log := st.log + [Opened(k, file)]), k, file, r)
  }

  /** The state after the writer has consumed `rs`, one record at a time. */
  function Run(folder: Option<string>, rs: seq<JsonBase>): (st: WriterState)
    ensures Complete(st.sinks)
  {
    if rs == [] then
      InitialSinksComplete();
      WriterState(InitialSinks, [], None)
    else Consume(folder, Run(folder, rs[..|rs| - 1]), rs[|rs| - 1])
  }

  /** `CloseC`: nothing for a writer that was never opened; otherwise the
      trailer with the counter and the kind's name. */
  function CloseC(s: Sink, k: OutputKind): seq<Event> {
    if s.writer.None? then [] else [Closed(k, s.count, FileName(k))]
  }

  /** The order of the six `CloseC` calls. */
  const CloseOrder: seq<OutputKind> := [Computers, Domains, Groups, Users, Sessions, Applications]

  /** The `CloseC` calls for `ks`, in order. */
  function CloseEach(sinks: Sinks, ks: seq<OutputKind>): seq<Event>
    requires Complete(sinks)
  {
    if ks == [] then []
    else CloseEach(sinks, ks[..|ks| - 1]) + CloseC(sinks[ks[|ks| - 1]], ks[|ks| - 1])
  }

  /** The six `CloseC` calls, in the order the writer makes them. */
  function CloseAll(sinks: Sinks): seq<Event>
    requires Complete(sinks)
  {
    CloseEach(sinks, CloseOrder)
  }

  /** The whole run of a writer task: its events and, if it faulted, the
      exception; a faulted task never reaches the close calls. */
  datatype WriterOutcome = WriterOutcome(events: seq<Event>, fault: Option<Exception>)

  function Output(folder: Option<string>, rs: seq<JsonBase>): WriterOutcome {
    var st := Run(folder, rs);
    if st.fault.Some? then WriterOutcome(st.log, st.fault)
    else WriterOutcome(st.log + CloseAll(st.sinks), None)
  }

  /** One pass of the `foreach` over a writer that has not faulted. */
  method WriteRecord(folder: Option<string>, sinks0: Sinks, log0: seq<Event>, r: JsonBase)
    returns (sinks: Sinks, log: seq<Event>, fault: Option<Exception>)
    requires Complete(sinks0)
    ensures Complete(sinks)
    ensures WriterState(sinks, log, fault) == Consume(folder, WriterState(sinks0, log0, None), r)
  {
    sinks, log, fault := sinks0, log0, None;
    var route := Route(r);
    if route.Some? {
      var k := route.value;
      if sinks[k].writer.None? {
        var f := CreateFileStream(folder, Some(FileName(k)));
        if f.Throws? {
          fault := Some(f.error);
        } else {
          log := log + [Opened(k, f.value)];
          sinks := sinks[k := Sink(Some(f.value), sinks[k].count)];
        }
      }
      if fault.None? {
        var counter := sinks[k].count + 1;
        log := log + [Serialized(k, r)];
        if counter % 100 == 0 {
          log := log + [Flushed(k)];
        }
        sinks := sinks[k := Sink(sinks[k].writer, counter)];
      }
    }
  }

  /** `StartOutputWriter`, with the queue drained in order (the blocking
      consumer and the task are left out). The loop keeps one writer
      variable and one counter per kind; it stops at the first exception. */
  method StartOutputWriter(folder: Option<string>, outputQueue: seq<JsonBase>)
    returns (events: seq<Event>, fault: Option<Exception>)
    ensures WriterOutcome(events, fault) == Output(folder, outputQueue)
  {
    var sinks := InitialSinks;
    var log: seq<Event> := [];
    fault := None;
    var i := 0;
    while i < |outputQueue| && fault.None?
      invariant 0 <= i <= |outputQueue|
      invariant Complete(sinks)
      invariant Run(folder, outputQueue[..i]) == WriterState(sinks, log, fault)
    {
      RunStep(folder, outputQueue, i);
      sinks, log, fault := WriteRecord(folder, sinks, log, outputQueue[i]);
      i := i + 1;
    }
    if fault.Some? {
      RunStaysFaulted(folder, outputQueue, i);
      events := log;
    } else {
      assert outputQueue[..i] == outputQueue;
      events := log + CloseAll(sinks);
    }
  }

  lemma RunStep(folder: Option<string>, rs: seq<JsonBase>, i: nat)
    requires i < |rs|
    ensures Run(folder, rs[..i + 1]) == Consume(folder, Run(folder, rs[..i]), rs[i])
  {
    assert rs[..i + 1][..i] == rs[..i];
  }

  /** Once the writer has faulted, the remaining records change nothing. */
  lemma {:induction false} RunStaysFaulted(folder: Option<string>, rs: seq<JsonBase>, i: nat)
    requires i <= |rs|
    requires Run(folder, rs[..i]).fault.Some?
    ensures Run(folder, rs) == Run(folder, rs[..i])
    decreases |rs| - i
  {
    if i < |rs| {
      assert rs[..i + 1][..i] == rs[..i];
      RunStaysFaulted(folder, rs, i + 1);
      assert rs[..|rs|] == rs;
    } else {
      assert rs[..i] == rs;
    }
  }

  /** How many records the writer takes off its queue before its task ends:
      the `foreach` takes each record in turn, and the exception of a file
      that cannot be created ends the task with the records after the one
      that raised it still in the queue. */
  function Taken(folder: Option<string>, rs: seq<JsonBase>): (n: nat)
    ensures n <= |rs|
    ensures Run(folder, rs).fault.None? ==> n == |rs|
    ensures n < |rs| ==> Run(folder, rs[..n]).fault.Some?
    ensures 0 < n ==> Run(folder, rs[..n - 1]).fault.None?
    ensures 0 < |rs| ==> (n == |rs| <==> Run(folder, rs[..|rs| - 1]).fault.None?)
  {
    if rs == [] then 0
    else if Run(folder, rs[..|rs| - 1]).fault.Some? then
      var n := Taken(folder, rs[..|rs| - 1]);
      assert rs[..|rs| - 1][..n] == rs[..n];
      assert 0 < n ==> rs[..|rs| - 1][..n - 1] == rs[..n - 1];
      n
    else |rs|
  }

  /** With a blank output folder the writer stops on the first record it
      writes, so a queue of two group records keeps the second one. */
  lemma BlankFolderLeavesRecords(folder: Option<string>, a: JsonBase, b: JsonBase)
    requires IsNullOrWhiteSpace(folder)
    requires a.GroupRecord?
    ensures Taken(folder, [a, b]) == 1
    ensures Run(folder, [a, b]).fault == Some(EnsureFailed("OutputFolderLocation"))
  {
    InitialSinksComplete();
    assert [a, b][..1] == [a];
    assert [a][..0] == [];
    assert Run(folder, []) == WriterState(InitialSinks, [], None);
    assert Run(folder, [a]) == Consume(folder, Run(folder, []), a);
    assert Run(folder, [a]).fault == Some(EnsureFailed("OutputFolderLocation"));
    assert Run(folder, [a, b]) == Consume(folder, Run(folder, [a]), b);
  }

  // ---------------------------------------------------------------------
  // What one file receives.

  /** The records of `rs` that the writer routes to `k`, in queue order. */
  function RecordsOf(rs: seq<JsonBase>, k: OutputKind): seq<JsonBase> {
    if rs == [] then []
    else RecordsOf(rs[..|rs| - 1], k) + (if Route(rs[|rs| - 1]) == Some(k) then [rs[|rs| - 1]] else [])
  }

  /** The events of `log` that concern file `k`, in order. */
  function EventsOf(log: seq<Event>, k: OutputKind): seq<Event> {
    if log == [] then []
    else EventsOf(log[..|log| - 1], k) + (if log[|log| - 1].kind == k then [log[|log| - 1]] else [])
  }

  lemma {:induction false} EventsOfAppend(a: seq<Event>, b: seq<Event>, k: OutputKind)
    ensures EventsOf(a + b, k) == EventsOf(a, k) + EventsOf(b, k)
    decreases |b|
  {
    if b == [] {
      assert a + b == a;
    } else {
      var b' := b[..|b| - 1];
      assert (a + b)[..|a + b| - 1] == a + b';
      assert (a + b)[|a + b| - 1] == b[|b| - 1];
      EventsOfAppend(a, b', k);
    }
  }

  /** The serialisations of the records of one file, each followed by a flush
      when it brings the counter to a multiple of 100. */
  function Serializations(k: OutputKind, recs: seq<JsonBase>): seq<Event> {
    if recs == [] then []
    else
      Serializations(k, recs[..|recs| - 1]) + [Serialized(k, recs[|recs| - 1])]
      + (if |recs| % 100 == 0 then [Flushed(k)] else [])
  }

  /** The file of kind `k` in `folder`. */
  function FileOf(folder: string, k: OutputKind): OutputFile {
    OutputFile(folder + FileName(k), FileName(k))
  }

  /** What file `k` receives from a writer that consumed `recs` of its kind:
      nothing at all when there were none; otherwise one creation, the
      serialisations, and a trailer counting them under the kind's name. */
  function FileEvents(folder: string, k: OutputKind, recs: seq<JsonBase>): seq<Event> {
    if recs == [] then []
    else [Opened(k, FileOf(folder, k))] + Serializations(k, recs) + [Closed(k, |recs|, FileName(k))]
  }

  /** What one routed record adds to the log: the creation of its file when
      that is the first record of its kind, its serialisation, and a flush
      when it brings the counter to a multiple of 100. */
  function StepEvents(folder: string, j: OutputKind, s: Sink, r: JsonBase): seq<Event> {
    (if s.writer.None? then [Opened(j, FileOf(folder, j))] else [])
    + [Serialized(j, r)] + (if (s.count + 1) % 100 == 0 then [Flushed(j)] else [])
  }

  lemma StepEventsOfOneKind(folder: string, j: OutputKind, s: Sink, r: JsonBase)
    ensures forall i :: 0 <= i < |StepEvents(folder, j, s, r)| ==> StepEvents(folder, j, s, r)[i].kind == j
  {
    var o := if s.writer.None? then [Opened(j, FileOf(folder, j))] else [];
    var f := if (s.count + 1) % 100 == 0 then [Flushed(j)] else [];
    assert StepEvents(folder, j, s, r) == o + [Serialized(j, r)] + f;
  }

  /** The writers a healthy writer task has opened are its own files. */
  predicate WritersAreFiles(folder: string, st: WriterState)
    requires Complete(st.sinks)
  {
    st.fault == None
    && forall j: OutputKind :: st.sinks[j].writer.Some? ==> st.sinks[j].writer == Some(FileOf(folder, j))
  }

  /** One record consumed by a healthy writer with a usable folder. */
  lemma ConsumeStep(folder: Option<string>, st: WriterState, r: JsonBase)
    requires !IsNullOrWhiteSpace(folder)
    requires Complete(st.sinks) && WritersAreFiles(folder.value, st)
    ensures Route(r).None? ==> Consume(folder, st, r) == st
    ensures Route(r).Some? ==>
      var j := Route(r).value;
      Consume(folder, st, r) == WriterState(
        st.sinks[j := Sink(Some(FileOf(folder.value, j)), st.sinks[j].count + 1)],
        st.log + StepEvents(folder.value, j, st.sinks[j], r), None)
  {
    if Route(r).Some? {
      FileNameNotBlank(Route(r).value);
    }
  }

  lemma {:induction false} RunWritersAreFiles(folder: Option<string>, rs: seq<JsonBase>)
    requires !IsNullOrWhiteSpace(folder)
    ensures WritersAreFiles(folder.value, Run(folder, rs))
  {
    if rs != [] {
      RunWritersAreFiles(folder, rs[..|rs| - 1]);
      ConsumeStep(folder, Run(folder, rs[..|rs| - 1]), rs[|rs| - 1]);
    }
  }

  /** Events all of one kind go to exactly that kind's file. */
  lemma {:induction false} EventsOfOneKind(events: seq<Event>, j: OutputKind, k: OutputKind)
    requires forall i :: 0 <= i < |events| ==> events[i].kind == j
    ensures EventsOf(events, k) == if j == k then events else []
  {
    if events != [] {
      EventsOfOneKind(events[..|events| - 1], j, k);
      assert events == events[..|events| - 1] + [events[|events| - 1]];
    }
  }

  lemma SerializationsSnoc(k: OutputKind, recs: seq<JsonBase>, r: JsonBase)
    ensures Serializations(k, recs + [r])
      == Serializations(k, recs) + [Serialized(k, r)] + (if (|recs| + 1) % 100 == 0 then [Flushed(k)] else [])
  {
    assert (recs + [r])[..|recs + [r]| - 1] == recs;
  }

  /** File `k` after one more record of its own kind. */
  lemma StepOwnKind(folder: string, k: OutputKind, s: Sink, recs: seq<JsonBase>, r: JsonBase, log: seq<Event>)
    requires s.count == |recs|
    requires s.writer == if recs == [] then None else Some(FileOf(folder, k))
    requires log == if recs == [] then [] else [Opened(k, FileOf(folder, k))] + Serializations(k, recs)
    ensures log + StepEvents(folder, k, s, r) == [Opened(k, FileOf(folder, k))] + Serializations(k, recs + [r])
  {
    SerializationsSnoc(k, recs, r);
  }

  /** Before the close calls, with a usable folder: the counter of `k` is the
      number of records routed to `k`. */
  lemma {:induction false} RunCount(folder: Option<string>, rs: seq<JsonBase>, k: OutputKind)
    requires !IsNullOrWhiteSpace(folder)
    ensures Run(folder, rs).sinks[k].count == |RecordsOf(rs, k)|
  {
    if rs != [] {
      var init := rs[..|rs| - 1];
      var r := rs[|rs| - 1];
      RunCount(folder, init, k);
      RunWritersAreFiles(folder, init);
      ConsumeStep(folder, Run(folder, init), r);
      assert RecordsOf(rs, k) == RecordsOf(init, k) + (if Route(r) == Some(k) then [r] else []);
    }
  }

  /** ... and the file of `k` is open exactly when that number is positive. */
  lemma {:induction false} RunWriter(folder: Option<string>, rs: seq<JsonBase>, k: OutputKind)
    requires !IsNullOrWhiteSpace(folder)
    ensures Run(folder, rs).sinks[k].writer
      == if RecordsOf(rs, k) == [] then None else Some(FileOf(folder.value, k))
  {
    if rs != [] {
      var init := rs[..|rs| - 1];
      var r := rs[|rs| - 1];
      RunWriter(folder, init, k);
      RunWritersAreFiles(folder, init);
      ConsumeStep(folder, Run(folder, init), r);
      assert RecordsOf(rs, k) == RecordsOf(init, k) + (if Route(r) == Some(k) then [r] else []);
    }
  }

  /** One more record appends its step events to the log. */
  lemma RunLogStep(folder: Option<string>, rs: seq<JsonBase>)
    requires !IsNullOrWhiteSpace(folder)
    requires rs != []
    ensures var st := Run(folder, rs[..|rs| - 1]); var r := rs[|rs| - 1];
      Run(folder, rs).log == st.log
        + (if Route(r).Some? then StepEvents(folder.value, Route(r).value, st.sinks[Route(r).value], r) else [])
  {
    RunWritersAreFiles(folder, rs[..|rs| - 1]);
    ConsumeStep(folder, Run(folder, rs[..|rs| - 1]), rs[|rs| - 1]);
  }

  /** ... and file `k` has received its creation and the serialisations. */
  lemma {:induction false} RunEvents(folder: Option<string>, rs: seq<JsonBase>, k: OutputKind)
    requires !IsNullOrWhiteSpace(folder)
    ensures EventsOf(Run(folder, rs).log, k)
      == if RecordsOf(rs, k) == [] then [] else [Opened(k, FileOf(folder.value, k))] + Serializations(k, RecordsOf(rs, k))
  {
    if rs != [] {
      var init := rs[..|rs| - 1];
      var r := rs[|rs| - 1];
      RunEvents(folder, init, k);
      RunLogStep(folder, rs);
      var st := Run(folder, init);
      var recs := RecordsOf(init, k);
      assert RecordsOf(rs, k) == recs + (if Route(r) == Some(k) then [r] else []);
      if Route(r).Some? {
        var j := Route(r).value;
        var added := StepEvents(folder.value, j, st.sinks[j], r);
        assert Run(folder, rs).log == st.log + added;
        EventsOfAppend(st.log, added, k);
        StepEventsOfOneKind(folder.value, j, st.sinks[j], r);
        EventsOfOneKind(added, j, k);
        if j == k {
          RunCount(folder, init, k);
          RunWriter(folder, init, k);
          StepOwnKind(folder.value, k, st.sinks[k], recs, r, EventsOf(st.log, k));
          assert RecordsOf(rs, k) == recs + [r];
        } else {
          assert RecordsOf(rs, k) == recs;
          assert EventsOf(Run(folder, rs).log, k) == EventsOf(st.log, k);
        }
      } else {
        assert RecordsOf(rs, k) == recs;
      }
    }
  }

  lemma CloseCProjection(s: Sink, j: OutputKind, k: OutputKind)
    ensures EventsOf(CloseC(s, j), k) == if j == k then CloseC(s, j) else []
  {
    EventsOfOneKind(CloseC(s, j), j, k);
  }

  /** The place of each kind in `CloseOrder`. */
  function Position(k: OutputKind): nat {
    match k
    case Computers => 0
    case Domains => 1
    case Groups => 2
    case Users => 3
    case Sessions => 4
    case Applications => 5
  }

  lemma PositionsDiffer(a: OutputKind, b: OutputKind)
    ensures Position(a) == Position(b) ==> a == b
  {
  }

  /** `ks` lists the kinds in `CloseOrder` order, without gaps from the first. */
  predicate InCloseOrder(ks: seq<OutputKind>) {
    forall i :: 0 <= i < |ks| ==> Position(ks[i]) == i
  }

  lemma {:induction false} CloseEachProjection(sinks: Sinks, ks: seq<OutputKind>, k: OutputKind)
    requires Complete(sinks)
    requires InCloseOrder(ks)
    ensures EventsOf(CloseEach(sinks, ks), k) == if Position(k) < |ks| then CloseC(sinks[k], k) else []
  {
    if ks != [] {
      var init, last := ks[..|ks| - 1], ks[|ks| - 1];
      var before, closing := CloseEach(sinks, init), CloseC(sinks[last], last);
      assert CloseEach(sinks, ks) == before + closing;
      assert InCloseOrder(init) by {
        forall i | 0 <= i < |init| ensures Position(init[i]) == i {
          assert init[i] == ks[i];
        }
      }
      CloseEachProjection(sinks, init, k);
      EventsOfAppend(before, closing, k);
      CloseCProjection(sinks[last], last, k);
      PositionsDiffer(k, last);
    }
  }

  /** The close calls concern each file once: file `k` receives exactly its
      own `CloseC`. */
  lemma CloseAllProjection(sinks: Sinks, k: OutputKind)
    requires Complete(sinks)
    ensures EventsOf(CloseAll(sinks), k) == CloseC(sinks[k], k)
  {
    assert InCloseOrder(CloseOrder);
    CloseEachProjection(sinks, CloseOrder, k);
  }

  /** With a usable output folder the writer never faults, and what each file
      receives depends only on the records routed to it: no file is created
      for a kind without records, the first record creates the file, every
      record is serialised in queue order with a flush at each hundredth,
      and the trailer counts the records under the kind's name. */
  lemma OutputProjection(folder: Option<string>, rs: seq<JsonBase>, k: OutputKind)
    requires !IsNullOrWhiteSpace(folder)
    ensures Output(folder, rs).fault == None
    ensures EventsOf(Output(folder, rs).events, k) == FileEvents(folder.value, k, RecordsOf(rs, k))
  {
    var st := Run(folder, rs);
    RunWritersAreFiles(folder, rs);
    RunCount(folder, rs, k);
    RunWriter(folder, rs, k);
    RunEvents(folder, rs, k);
    EventsOfAppend(st.log, CloseAll(st.sinks), k);
    CloseAllProjection(st.sinks, k);
  }

  /** With a null or blank output folder nothing reaches any file, and the
      writer faults, on the folder check, exactly when some record is of a
      kind that is written. */
  lemma {:induction false} BlankFolderWritesNothing(folder: Option<string>, rs: seq<JsonBase>)
    requires IsNullOrWhiteSpace(folder)
    ensures Output(folder, rs).events == []
    ensures Output(folder, rs).fault.Some? <==> exists i :: 0 <= i < |rs| && Route(rs[i]).Some?
    ensures Output(folder, rs).fault.Some? ==>
      Output(folder, rs).fault == Some(EnsureFailed("OutputFolderLocation"))
  {
    RunBlankFolder(folder, rs);
    InitialSinksComplete();
    NothingOpenClosesNothing(InitialSinks, CloseOrder);
  }

  /** Writers that were never opened write no trailer. */
  lemma {:induction false} NothingOpenClosesNothing(sinks: Sinks, ks: seq<OutputKind>)
    requires Complete(sinks)
    requires forall k :: k in sinks ==> sinks[k].writer.None?
    ensures CloseEach(sinks, ks) == []
  {
    if ks != [] {
      NothingOpenClosesNothing(sinks, ks[..|ks| - 1]);
    }
  }

  lemma {:induction false} RunBlankFolder(folder: Option<string>, rs: seq<JsonBase>)
    requires IsNullOrWhiteSpace(folder)
    ensures Run(folder, rs).log == []
    ensures Run(folder, rs).sinks == InitialSinks
    ensures Run(folder, rs).fault == if exists i :: 0 <= i < |rs| && Route(rs[i]).Some? then
      Some(EnsureFailed("OutputFolderLocation")) else None
  {
    if rs != [] {
      var init := rs[..|rs| - 1];
      RunBlankFolder(folder, init);
      assert forall i :: 0 <= i < |init| ==> rs[i] == init[i];
      if exists i :: 0 <= i < |init| && Route(init[i]).Some? {
        var i :| 0 <= i < |init| && Route(init[i]).Some?;
        assert rs[i] == init[i];
      } else if Route(rs[|rs| - 1]).None? {
        assert forall i :: 0 <= i < |rs| ==> Route(rs[i]).None? by {
          forall i | 0 <= i < |rs| ensures Route(rs[i]).None? {
            if i < |init| {
              assert rs[i] == init[i];
            }
          }
        }
      }
    }
  }

  /** The number of flushes a file receives is its record count divided by
      100, rounded down. */
  function FlushCount(events: seq<Event>): nat {
    if events == [] then 0
    else FlushCount(events[..|events| - 1]) + (if events[|events| - 1].Flushed? then 1 else 0)
  }

  lemma {:induction false} FlushCountAppend(a: seq<Event>, b: seq<Event>)
    ensures FlushCount(a + b) == FlushCount(a) + FlushCount(b)
    decreases |b|
  {
    if b == [] {
      assert a + b == a;
    } else {
      var b' := b[..|b| - 1];
      assert (a + b)[..|a + b| - 1] == a + b';
      assert (a + b)[|a + b| - 1] == b[|b| - 1];
      FlushCountAppend(a, b');
    }
  }

  lemma {:induction false} SerializationFlushes(k: OutputKind, recs: seq<JsonBase>)
    ensures FlushCount(Serializations(k, recs)) == |recs| / 100
  {
    if recs != [] {
      var init := recs[..|recs| - 1];
      SerializationFlushes(k, init);
      var tail := [Serialized(k, recs[|recs| - 1])] + (if |recs| % 100 == 0 then [Flushed(k)] else []);
      assert Serializations(k, recs) == Serializations(k, init) + tail;
      DivStep(|recs|);
      FlushCountAppend(Serializations(k, init), tail);
      FlushCountAppend([Serialized(k, recs[|recs| - 1])], if |recs| % 100 == 0 then [Flushed(k)] else []);
      assert FlushCount([Serialized(k, recs[|recs| - 1])]) == 0 by {
        assert [Serialized(k, recs[|recs| - 1])][..0] == [];
      }
      if |recs| % 100 == 0 {
        assert FlushCount([Flushed(k)]) == 1 by {
          assert [Flushed(k)][..0] == [];
        }
      }
    }
  }

  lemma DivStep(n: nat)
    requires n >= 1
    ensures n / 100 == (n - 1) / 100 + (if n % 100 == 0 then 1 else 0)
  {
    var q := (n - 1) / 100;
    var r := (n - 1) % 100;
    assert n - 1 == 100 * q + r;
    if r == 99 {
      assert n == 100 * (q + 1);
    } else {
      assert n == 100 * q + (r + 1);
    }
  }

  /** The records serialised into a file, in the order they were written. */
  function SerializedRecords(events: seq<Event>): seq<JsonBase> {
    if events == [] then []
    else
      SerializedRecords(events[..|events| - 1])
      + (if events[|events| - 1].Serialized? then [events[|events| - 1].record] else [])
  }

  lemma {:induction false} SerializedRecordsAppend(a: seq<Event>, b: seq<Event>)
    ensures SerializedRecords(a + b) == SerializedRecords(a) + SerializedRecords(b)
    decreases |b|
  {
    if b == [] {
      assert a + b == a;
    } else {
      var b' := b[..|b| - 1];
      assert (a + b)[..|a + b| - 1] == a + b';
      assert (a + b)[|a + b| - 1] == b[|b| - 1];
      SerializedRecordsAppend(a, b');
    }
  }

  /** Every record of a file is serialised exactly once, in queue order. */
  lemma SerializedRecordsOfStep(k: OutputKind, last: JsonBase, flush: seq<Event>)
    requires flush == [] || flush == [Flushed(k)]
    ensures SerializedRecords([Serialized(k, last)] + flush) == [last]
  {
    SerializedRecordsAppend([Serialized(k, last)], flush);
    assert [Serialized(k, last)][..0] == [];
    if flush != [] {
      assert flush[..0] == [];
    }
  }

  lemma {:induction false} SerializationsKeepRecords(k: OutputKind, recs: seq<JsonBase>)
    ensures SerializedRecords(Serializations(k, recs)) == recs
  {
    if recs != [] {
      var init := recs[..|recs| - 1];
      var last := recs[|recs| - 1];
      SerializationsKeepRecords(k, init);
      var flush := if |recs| % 100 == 0 then [Flushed(k)] else [];
      assert Serializations(k, recs) == Serializations(k, init) + ([Serialized(k, last)] + flush);
      SerializedRecordsAppend(Serializations(k, init), [Serialized(k, last)] + flush);
      SerializedRecordsOfStep(k, last, flush);
      assert recs == init + [last];
    }
  }

  // ---------------------------------------------------------------------
  // DirectoryRoleMembersResultsToList

  /** The exception `DirectoryRoleMembersResultsToList` stops at, if any:
      the cast to a user fails on a member of another type, and the
      `MemberName` setter fails on a user without a display name. */
  function RoleMembersError(members: seq<Graph.DirectoryObject>): Option<Exception> {
    if members == [] then None
    else if !members[0].UserObject? then Some(InvalidCast)
    else if members[0].user.displayName.None? then Some(NullReference)
    else RoleMembersError(members[1..])
  }

  /** The conversion succeeds exactly when every member is a user with a
      display name. */
  lemma {:induction false} RoleMembersErrorFree(members: seq<Graph.DirectoryObject>)
    ensures RoleMembersError(members).None?
      <==> forall i :: 0 <= i < |members| ==> members[i].UserObject? && members[i].user.displayName.Some?
  {
    if members != [] {
      RoleMembersErrorFree(members[1..]);
      assert forall i :: 1 <= i < |members| ==> members[i] == members[1..][i - 1];
    }
  }

  /** `DirectoryRoleMembersResultsToList`: every member, in order, becomes a
      group member with the user's id, the upper-cased display name and the
      type "User"; the first member that is not a user, or has no display
      name, ends the conversion with the exception it raises. */
  method DirectoryRoleMembersResultsToList(roleMembers: seq<Graph.DirectoryObject>)
    returns (r: Result<seq<GroupMembers.GroupMember>>)
    ensures r.Throws? <==> RoleMembersError(roleMembers).Some?
    ensures r.Throws? ==> r.error == RoleMembersError(roleMembers).value
    ensures r.Ok? ==> |r.value| == |roleMembers|
    ensures r.Ok? ==> forall i :: 0 <= i < |roleMembers| ==>
      && fresh(r.value[i])
      && roleMembers[i].UserObject?
      && roleMembers[i].user.displayName.Some?
      && r.value[i].id == Some(roleMembers[i].user.id)
      && r.value[i].memberName == Some(Upper(roleMembers[i].user.displayName.value))
      && r.value[i].memberType == Some("User")
  {
    var list: seq<GroupMembers.GroupMember> := [];
    var i := 0;
    while i < |roleMembers|
      invariant 0 <= i <= |roleMembers|
      invariant RoleMembersError(roleMembers) == RoleMembersError(roleMembers[i..])
      invariant |list| == i
      invariant forall j :: 0 <= j < i ==>
        && fresh(list[j])
        && roleMembers[j].UserObject?
        && roleMembers[j].user.displayName.Some?
        && list[j].id == Some(roleMembers[j].user.id)
        && list[j].memberName == Some(Upper(roleMembers[j].user.displayName.value))
        && list[j].memberType == Some("User")
    {
      assert roleMembers[i..][1..] == roleMembers[i + 1..];
      var member := roleMembers[i];
      if !member.UserObject? {
        return Throws(InvalidCast);
      }
      TitleCase.ToTitleCaseOfTags();
      var m := GroupMembers.NewGroupMember(Some(member.user.id), member.user.displayName, Some("User"));
      if m.Throws? {
        return Throws(m.error);
      }
      list := list + [m.value];
      i := i + 1;
    }
    return Ok(list);
  }
}
