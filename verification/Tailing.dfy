/** Tailing the output of a process: the process appends to a file and ends, the server
    reads to the end of the file, sends what it read and polls, and the client writes
    what it receives. */
module Tailing {

  type Bytes = seq<bv8>

  datatype Process =
    | Alive
    | Exited(failed: bool)
    | Reaped(failed: bool)

  /** `CheckDone` and `Returned` remember the last empty read: the length of the file, and
      whether the wait for the process had returned by then. */
  datatype Server =
    | Reading
    | Sending(chunk: Bytes)
    | CheckDone(len: nat, ended: bool)
    | Sleeping
    | Returned(len: nat, ended: bool)
    | Broken

  datatype Client = Receiving | Finished | Gone

  datatype World = World(
    file: Bytes,
    process: Process,
    offset: nat,
    server: Server,
    wire: seq<Bytes>,
    written: Bytes,
    client: Client)

  datatype Step =
    | Append(more: Bytes)
    | Exit(failed: bool)
    | CloseDone
    | Read
    | ReadFails
    | Send
    | SendFails
    | Check
    | Wake
    | Receive
    | WriteFails(part: nat)
    | EndOfStream
    | StreamFails

  /** `Exit` is the return of `cmd.Wait`, which waits until all output is in the file; the
      process itself may have ended before. */
  predicate Enabled(w: World, s: Step) {
    match s
    case Append(_) => w.process.Alive?
    case Exit(_) => w.process.Alive?
    case CloseDone => w.process.Exited?
    case Read => w.server.Reading? && w.offset <= |w.file|
    case ReadFails => w.server.Reading?
    case Send => w.server.Sending?
    case SendFails => w.server.Sending?
    case Check => w.server.CheckDone?
    case Wake => w.server.Sleeping?
    case Receive => w.client.Receiving? && |w.wire| > 0
    case WriteFails(part) => w.client.Receiving? && |w.wire| > 0 && part <= |w.wire[0]|
    case EndOfStream => w.client.Receiving? && w.wire == [] && w.server.Returned?
    case StreamFails => w.client.Receiving?
  }

  function Do(w: World, s: Step): World
    requires Enabled(w, s)
  {
    match s
    case Append(more) => w.(file := w.file + more)
    case Exit(failed) => w.(process := Exited(failed))
    case CloseDone => w.(process := Reaped(w.process.failed))
    case Read =>
      if w.offset == |w.file| then w.(server := CheckDone(|w.file|, !w.process.Alive?))
      else w.(server := Sending(w.file[w.offset..]), offset := |w.file|)
    case ReadFails => w.(server := Broken)
    case Send => w.(wire := w.wire + [w.server.chunk], server := Reading)
    case SendFails => w.(server := Broken)
    case Check => w.(server := if w.process.Reaped? then Returned(w.server.len, w.server.ended) else Sleeping)
    case Wake => w.(server := Reading)
    case Receive => w.(wire := w.wire[1..], written := w.written + w.wire[0])
    case WriteFails(part) => w.(written := w.written + w.wire[0][..part], client := Gone)
    case EndOfStream => w.(client := Finished)
    case StreamFails => w.(client := Gone)
  }

  function Start(): World {
    World([], Alive, 0, Reading, [], [], Receiving)
  }

  ghost predicate Next(w: World, w': World) {
    exists s: Step :: Enabled(w, s) && w' == Do(w, s)
  }

  ghost predicate Linked(r: seq<World>, i: nat)
    requires 0 < i < |r|
  {
    Next(r[i - 1], r[i])
  }

  ghost predicate Run(r: seq<World>) {
    |r| > 0 && r[0] == Start() && forall i | 0 < i < |r| :: Linked(r, i)
  }

  function Flat(chunks: seq<Bytes>): Bytes {
    if chunks == [] then [] else chunks[0] + Flat(chunks[1..])
  }

  lemma {:induction false} FlatAppend(chunks: seq<Bytes>, c: Bytes)
    ensures Flat(chunks + [c]) == Flat(chunks) + c
  {
    if chunks == [] {
      assert Flat([c]) == c + Flat([]);
    } else {
      assert (chunks + [c])[1..] == chunks[1..] + [c];
      FlatAppend(chunks[1..], c);
    }
  }

  function InHand(s: Server): Bytes {
    if s.Sending? then s.chunk else []
  }

  /** While both ends work, what was written, what is under way and what the server
      holds are together exactly the file up to the offset. */
  ghost predicate Inv(w: World) {
    && w.offset <= |w.file|
    && (w.client != Gone && w.server != Broken ==> w.written + Flat(w.wire) + InHand(w.server) == w.file[..w.offset])
    && w.written + Flat(if w.client == Gone then [] else w.wire) <= w.file[..w.offset]
    && (w.server.CheckDone? || w.server.Returned? ==>
      w.server.len == w.offset && (w.server.ended ==> !w.process.Alive? && w.offset == |w.file|))
    && (w.server.Returned? ==> w.process.Reaped?)
    && (w.client == Finished ==> w.wire == [] && w.server.Returned?)
  }

  lemma StepServer(w: World, s: Step)
    requires Inv(w) && Enabled(w, s)
    requires s.Read? || s.ReadFails? || s.Send? || s.SendFails? || s.Check? || s.Wake?
    ensures Inv(Do(w, s))
  {
    match s
    case Read => if w.offset < |w.file| { assert w.file[..w.offset] + w.file[w.offset..] == w.file[..|w.file|]; }
    case Send => FlatAppend(w.wire, w.server.chunk);
    case _ =>
  }

  lemma StepClient(w: World, s: Step)
    requires Inv(w) && Enabled(w, s)
    requires s.Receive? || s.WriteFails? || s.EndOfStream? || s.StreamFails?
    ensures Inv(Do(w, s))
  {
    if s.Receive? {
      assert w.written + Flat(w.wire) == w.written + w.wire[0] + Flat(w.wire[1..]);
    } else if s.WriteFails? {
      assert w.written + Flat(w.wire) == w.written + w.wire[0][..s.part] + (w.wire[0][s.part..] + Flat(w.wire[1..]));
    }
  }

  lemma StepProcess(w: World, s: Step)
    requires Inv(w) && Enabled(w, s) && (s.Append? || s.Exit? || s.CloseDone?)
    ensures Inv(Do(w, s))
  {
    if s.Append? { assert (w.file + s.more)[..w.offset] == w.file[..w.offset]; }
  }

  lemma {:induction false} RunInv(r: seq<World>, i: nat)
    requires Run(r) && i < |r|
    ensures Inv(r[i])
  {
    if i > 0 {
      RunInv(r, i - 1);
      assert Linked(r, i);
      var s: Step :| Enabled(r[i - 1], s) && r[i] == Do(r[i - 1], s);
      if s.Append? || s.Exit? || s.CloseDone? { StepProcess(r[i - 1], s); }
      else if s.Receive? || s.WriteFails? || s.EndOfStream? || s.StreamFails? { StepClient(r[i - 1], s); }
      else { StepServer(r[i - 1], s); }
    }
  }

  /** At every point the client has written a prefix of the process output, without gaps
      or repeats, whatever fails. */
  lemma WrittenIsAPrefix(r: seq<World>, i: nat)
    requires Run(r) && i < |r|
    ensures r[i].written <= r[i].file
  {
    RunInv(r, i);
    assert r[i].file[..r[i].offset] <= r[i].file;
  }

  /** When the client finishes normally it has everything up to the server's last empty
      read, and so everything exactly when nothing was appended after that read. */
  lemma FinishedClientHasTheTail(r: seq<World>, i: nat)
    requires Run(r) && i < |r| && r[i].client == Finished
    ensures r[i].server.Returned? && r[i].process.Reaped?
    ensures r[i].server.len <= |r[i].file| && r[i].written == r[i].file[..r[i].server.len]
    ensures r[i].written == r[i].file <==> r[i].server.len == |r[i].file|
  {
    RunInv(r, i);
    var w := r[i];
    assert w.written + Flat(w.wire) + InHand(w.server) == w.written;
  }

  /** Nothing is missing if the wait for the process had returned before the last empty
      read. */
  lemma NothingMissingAfterExit(r: seq<World>, i: nat)
    requires Run(r) && i < |r| && r[i].client == Finished && r[i].server.Returned? && r[i].server.ended
    ensures r[i].written == r[i].file
  {
    FinishedClientHasTheTail(r, i);
    RunInv(r, i);
  }

  /** Output appended between the last empty read and the done check is lost, although
      the stream ends normally. */
  lemma TailCanBeLost(tail: Bytes) returns (r: seq<World>)
    requires tail != []
    ensures Run(r) && r[|r| - 1].client == Finished
    ensures r[|r| - 1].file == tail && r[|r| - 1].written == []
  {
    var w0 := Start();
    var w1 := Do(w0, Read);
    var w2 := Do(w1, Append(tail));
    var w3 := Do(w2, Exit(false));
    var w4 := Do(w3, CloseDone);
    var w5 := Do(w4, Check);
    var w6 := Do(w5, EndOfStream);
    r := [w0, w1, w2, w3, w4, w5, w6];
    forall i | 0 < i < |r|
      ensures Linked(r, i)
    {
      assert Next(w0, w1) && Next(w1, w2) && Next(w2, w3) && Next(w3, w4) && Next(w4, w5) && Next(w5, w6);
    }
  }

  // ---------------------------------------------------------------- the process state reported

  datatype ProcessState = RUNNING | SUCCEEDED | FAILED

  /** `processToProto`. */
  function Report(p: Process): ProcessState {
    match p
    case Reaped(failed) => if failed then FAILED else SUCCEEDED
    case _ => RUNNING
  }

  /** A reported end is final: the state and the output file no longer change. */
  lemma {:induction false} ReportedEndIsFinal(r: seq<World>, i: nat, j: nat)
    requires Run(r) && i <= j < |r| && Report(r[i].process) != RUNNING
    ensures Report(r[j].process) == Report(r[i].process) && r[j].file == r[i].file
  {
    if i < j {
      ReportedEndIsFinal(r, i, j - 1);
      assert Linked(r, j);
    }
  }

  /** Once the end is reported, the report is how the wait for the process ended. */
  lemma ReportTellsTheEnd(r: seq<World>, i: nat, j: nat, failed: bool)
    requires Run(r) && i + 1 <= j < |r| && Enabled(r[i], Exit(failed)) && r[i + 1] == Do(r[i], Exit(failed))
    ensures Report(r[j].process) == RUNNING || Report(r[j].process) == if failed then FAILED else SUCCEEDED
  {
    EndIsKept(r, i + 1, j, failed);
  }

  lemma {:induction false} EndIsKept(r: seq<World>, i: nat, j: nat, failed: bool)
    requires Run(r) && i <= j < |r| && (r[i].process == Exited(failed) || r[i].process == Reaped(failed))
    ensures r[j].process == Exited(failed) || r[j].process == Reaped(failed)
  {
    if i < j {
      EndIsKept(r, i, j - 1, failed);
      assert Linked(r, j);
    }
  }

  /** The end is reported exactly once the done channel is closed. */
  lemma EndIsReportedAfterClose(r: seq<World>, i: nat)
    requires Run(r) && i + 1 < |r| && Enabled(r[i], CloseDone) && r[i + 1] == Do(r[i], CloseDone)
    ensures Report(r[i].process) == RUNNING && Report(r[i + 1].process) != RUNNING
  {
  }

  // ---------------------------------------------------------------- the two loops

  /** What one round of `streamOutput` meets: the bytes up to the end of the file, or a
      read error, then either the done check or the result of the send. */
  datatype Round = Round(chunk: Bytes, readOk: bool, done: bool, sendOk: bool)

  function Chunks(rounds: seq<Round>): seq<Bytes> {
    seq(|rounds|, i requires 0 <= i < |rounds| => rounds[i].chunk)
  }

  /** `streamOutput`: the messages sent are the bytes read, in order; it returns without
      an error only from an empty read that is followed by a passed done check. */
  method StreamOutput(rounds: seq<Round>) returns (ok: bool, used: nat, sent: seq<Bytes>)
    ensures used <= |rounds|
    ensures Flat(sent) == Flat(Chunks(rounds[..used]))
    ensures forall i | 0 <= i < |sent| :: sent[i] != []
    ensures ok <==> used < |rounds| && rounds[used].readOk && rounds[used].chunk == [] && rounds[used].done
    ensures forall i | 0 <= i < used ::
      rounds[i].readOk && (rounds[i].chunk == [] ==> !rounds[i].done) && (rounds[i].chunk != [] ==> rounds[i].sendOk)
  {
    sent := [];
    var buf: Bytes := [];
    used := 0;
    while used < |rounds|
      invariant used <= |rounds| && buf == []
      invariant Flat(sent) == Flat(Chunks(rounds[..used]))
      invariant forall i | 0 <= i < |sent| :: sent[i] != []
      invariant forall i | 0 <= i < used ::
        rounds[i].readOk && (rounds[i].chunk == [] ==> !rounds[i].done) && (rounds[i].chunk != [] ==> rounds[i].sendOk)
    {
      var x := rounds[used];
      assert Chunks(rounds[..used + 1]) == Chunks(rounds[..used]) + [x.chunk];
      FlatAppend(Chunks(rounds[..used]), x.chunk);
      if !x.readOk {
        return false, used, sent;
      }
      buf := buf + x.chunk;
      if |x.chunk| == 0 {
        if x.done {
          return true, used, sent;
        }
      } else {
        if !x.sendOk {
          return false, used, sent;
        }
        FlatAppend(sent, buf);
        sent := sent + [buf];
        buf := [];
      }
      used := used + 1;
    }
    ok := false;
  }

  /** One message the client receives, and whether writing it works; a failing write may
      have written some bytes. */
  datatype Message = Message(body: Bytes, writeOk: bool, taken: nat)

  function Partly(m: Message): Bytes {
    m.body[..if m.taken < |m.body| then m.taken else |m.body|]
  }

  function Bodies(ms: seq<Message>): seq<Bytes> {
    seq(|ms|, i requires 0 <= i < |ms| => ms[i].body)
  }

  /** `output`: the client writes the messages in order until the stream ends, with or
      without an error, or a write fails. */
  method Output(ms: seq<Message>, endsWithEOF: bool) returns (ok: bool, used: nat, out: Bytes)
    ensures ok <==> endsWithEOF && used == |ms|
    ensures used <= |ms| && forall i | 0 <= i < used :: ms[i].writeOk
    ensures used < |ms| ==> !ms[used].writeOk && out == Flat(Bodies(ms[..used])) + Partly(ms[used])
    ensures used == |ms| ==> out == Flat(Bodies(ms))
    ensures out <= Flat(Bodies(ms))
  {
    out := [];
    for i := 0 to |ms|
      invariant out == Flat(Bodies(ms[..i]))
      invariant forall k | 0 <= k < i :: ms[k].writeOk
    {
      assert Bodies(ms[..i + 1]) == Bodies(ms[..i]) + [ms[i].body];
      FlatAppend(Bodies(ms[..i]), ms[i].body);
      if !ms[i].writeOk {
        FlatPrefix(Bodies(ms), i + 1);
        assert Bodies(ms)[..i + 1] == Bodies(ms[..i + 1]);
        return false, i, out + Partly(ms[i]);
      }
      out := out + ms[i].body;
    }
    assert ms[..|ms|] == ms;
    ok, used := endsWithEOF, |ms|;
  }

  lemma {:induction false} FlatPrefix(chunks: seq<Bytes>, i: nat)
    requires i <= |chunks|
    ensures Flat(chunks[..i]) <= Flat(chunks)
  {
    if i > 0 {
      FlatPrefix(chunks[1..], i - 1);
      assert chunks[..i][1..] == chunks[1..][..i - 1];
    }
  }
}
