/** Progress callbacks: what they are told, and how those of several threads overlap
    (core/services/download_service.py:126-148, 307-329). */
module Callbacks {
  import opened Bytes

  /** What a progress callback is told of a file. `round` counts how often the file has started over: it is not told,
      but says which emissions belong together. */
  datatype Emit = Emit(file: nat, round: nat, downloaded: nat, total: Option<nat>, done: bool)

  /** An emission never claims more than the whole file, and claims all of it when done. */
  predicate Plausible(e: Emit) {
    e.total.Some? ==> e.downloaded <= e.total.value && (e.done ==> e.downloaded == e.total.value)
  }

  /** The later emission claims no less. */
  predicate Continues(a: Emit, b: Emit) {
    a.total == b.total && a.downloaded <= b.downloaded && (a.done ==> b.done)
  }

  /** One call of a progress callback. A later call of the same file has a larger `id`. */
  datatype Callback = Callback(id: nat, emit: Emit)

  /** A callback begins, as the emission it is told is computed, makes its row updates one by one, and ends. */
  datatype Mark =
    | Enter(call: Callback)
    | Row(call: Callback, stage: nat)
    | Leave(call: Callback)

  const ROWS := 3

  /** The callbacks that have begun and not ended. */
  function Open(marks: seq<Mark>): set<Callback> {
    if marks == [] then {} else OpenAfter(Open(marks[..|marks| - 1]), marks[|marks| - 1])
  }

  function OpenAfter(open: set<Callback>, m: Mark): set<Callback> {
    if m.Enter? then open + {m.call} else if m.Leave? then open - {m.call} else open
  }

  /** A mark that may come when these callbacks are open: row updates and ends are those of open callbacks. */
  predicate MayCome(open: set<Callback>, m: Mark) { if m.Enter? then m.call !in open else m.call in open }

  predicate Nested(marks: seq<Mark>) {
    marks == [] || (Nested(marks[..|marks| - 1]) && MayCome(Open(marks[..|marks| - 1]), marks[|marks| - 1]))
  }

  lemma OpenSnoc(marks: seq<Mark>, m: Mark)
    ensures Open(marks + [m]) == OpenAfter(Open(marks), m)
    ensures Nested(marks + [m]) <==> Nested(marks) && MayCome(Open(marks), m)
  {
    assert (marks + [m])[..|marks|] == marks;
  }

  /** Marks that follow a point where no callback is open are counted from there. */
  lemma {:induction false} OpenConcat(a: seq<Mark>, b: seq<Mark>)
    requires Open(a) == {} && Nested(a) && Nested(b)
    ensures Open(a + b) == Open(b) && Nested(a + b)
    decreases |b|
  {
    if b == [] {
      assert a + b == a;
    } else {
      var front, last := b[..|b| - 1], b[|b| - 1];
      assert front + [last] == b;
      OpenConcat(a, front);
      AppendAssociates(a, front, [last]);
      OpenSnoc(a + front, last);
    }
  }

  lemma {:induction false} NestedPrefix(marks: seq<Mark>, i: nat)
    requires Nested(marks) && i < |marks|
    ensures Nested(marks[..i]) && MayCome(Open(marks[..i]), marks[i])
    ensures marks[..i + 1] == marks[..i] + [marks[i]]
    decreases |marks|
  {
    var front := marks[..|marks| - 1];
    if i < |marks| - 1 {
      NestedPrefix(front, i);
      assert front[..i] == marks[..i];
    } else {
      assert marks[..i] == front;
    }
  }

  /** A callback that was not open at one point and is open at a later one has begun in between. */
  lemma {:induction false} BeganBetween(marks: seq<Mark>, from: nat, upto: nat, c: Callback) returns (k: nat)
    requires from <= upto <= |marks| && c !in Open(marks[..from]) && c in Open(marks[..upto])
    ensures from <= k < upto && marks[k] == Enter(c)
    decreases upto
  {
    assert from < upto;
    TakeNext(marks, upto - 1);
    OpenSnoc(marks[..upto - 1], marks[upto - 1]);
    if marks[upto - 1] == Enter(c) {
      k := upto - 1;
    } else {
      k := BeganBetween(marks, from, upto - 1, c);
    }
  }

  /** A row update, or an end, is that of a callback which has begun before. */
  lemma HasBegun(marks: seq<Mark>, i: nat) returns (k: nat)
    requires Nested(marks) && i < |marks| && !marks[i].Enter?
    ensures k < i && marks[k] == Enter(marks[i].call)
  {
    NestedPrefix(marks, i);
    assert marks[..0] == [];
    k := BeganBetween(marks, 0, i, marks[i].call);
  }

  // ---------- one file ----------

  /** Some callback was told this. */
  predicate Told(marks: seq<Mark>, e: Emit) { exists m :: m in marks && m.Enter? && m.call.emit == e }

  /** Two emissions of a file in their order: within a round, the later one continues the earlier. */
  predicate InStep(a: Emit, b: Emit) {
    a.round <= b.round && (a.round == b.round ==> Continues(a, b))
  }

  /** The marks of a file that has started over `now` times so far. A callback is known by the position of its
      beginning. */
  predicate Kept(marks: seq<Mark>, file: nat, now: nat) {
    && Nested(marks)
    && (forall m | m in marks :: m.call.emit.file == file && m.call.emit.round <= now && Plausible(m.call.emit))
    && (forall i | 0 <= i < |marks| && marks[i].Enter? :: marks[i].call.id == i)
    && (forall i, j | 0 <= i < j < |marks| && marks[i].Enter? && marks[j].Enter? ::
          InStep(marks[i].call.emit, marks[j].call.emit))
  }

  /** Of the present round, no more than `level` bytes have been claimed. */
  predicate Behind(marks: seq<Mark>, now: nat, total: Option<nat>, level: nat) {
    forall m | m in marks && m.Enter? && m.call.emit.round == now ::
      m.call.emit.total == total && !m.call.emit.done && m.call.emit.downloaded <= level
  }

  /** From this round on, a callback only begins when none is open. */
  predicate AloneFrom(marks: seq<Mark>, round: nat) {
    forall k | 0 <= k < |marks| && marks[k].Enter? && marks[k].call.emit.round >= round :: Open(marks[..k]) == {}
  }

  /** What follows in the second log begins alone wherever the first did. */
  ghost predicate StaysAlone(marks: seq<Mark>, longer: seq<Mark>) {
    forall from | AloneFrom(marks, from) :: AloneFrom(longer, from)
  }

  /** The callback that is next to begin. */
  function NextCall(marks: seq<Mark>, e: Emit): Callback { Callback(|marks|, e) }

  lemma NextCallIsNew(marks: seq<Mark>, e: Emit)
    requires Kept(marks, e.file, e.round)
    ensures NextCall(marks, e) !in Open(marks)
  {
    if NextCall(marks, e) in Open(marks) {
      assert marks[..|marks|] == marks && marks[..0] == [];
      var k := BeganBetween(marks, 0, |marks|, NextCall(marks, e));
      assert false;
    }
  }

  lemma AppendEnter(marks: seq<Mark>, e: Emit)
    requires Kept(marks, e.file, e.round) && Plausible(e) && Behind(marks, e.round, e.total, e.downloaded)
    ensures var all := marks + [Enter(NextCall(marks, e))];
            && Kept(all, e.file, e.round) && NextCall(marks, e) !in Open(marks)
            && Open(all) == Open(marks) + {NextCall(marks, e)}
            && (!e.done ==> Behind(all, e.round, e.total, e.downloaded))
  {
    NextCallIsNew(marks, e);
    var all := marks + [Enter(NextCall(marks, e))];
    OpenSnoc(marks, all[|marks|]);
    forall i, j | 0 <= i < j < |all| && all[i].Enter? && all[j].Enter?
      ensures InStep(all[i].call.emit, all[j].call.emit)
    {
      assert all[i] in marks;
    }
  }

  lemma AppendOther(marks: seq<Mark>, m: Mark, file: nat, now: nat)
    requires Kept(marks, file, now) && !m.Enter? && m.call in Open(marks)
    ensures Kept(marks + [m], file, now)
    ensures Open(marks + [m]) == if m.Leave? then Open(marks) - {m.call} else Open(marks)
    ensures forall total, level | Behind(marks, now, total, level) :: Behind(marks + [m], now, total, level)
    ensures StaysAlone(marks, marks + [m])
  {
    OpenSnoc(marks, m);
    assert marks[..|marks|] == marks && marks[..0] == [];
    var k := BeganBetween(marks, 0, |marks|, m.call);
    assert marks[k] in marks;
    AloneStays(marks, m);
  }

  lemma AloneStays(marks: seq<Mark>, m: Mark)
    requires m.Enter? ==> Open(marks) == {}
    ensures StaysAlone(marks, marks + [m])
  {
    var all := marks + [m];
    forall from, k | AloneFrom(marks, from) && 0 <= k < |all| && all[k].Enter? && all[k].call.emit.round >= from
      ensures Open(all[..k]) == {}
    {
      assert all[..k] == marks[..k];
      assert marks[..|marks|] == marks;
    }
  }

  /** Before a round has begun, nobody has been alone or not in it. */
  lemma NotYetAlone(marks: seq<Mark>, file: nat, now: nat)
    requires Kept(marks, file, now)
    ensures AloneFrom(marks, now + 1)
  {
  }

  /** A new round has claimed nothing yet. */
  lemma StartOver(marks: seq<Mark>, file: nat, now: nat, total: Option<nat>)
    requires Kept(marks, file, now)
    ensures Kept(marks, file, now + 1) && Behind(marks, now + 1, total, 0)
  {
  }

  /** A callback on the thread that emits: nothing else runs until it has ended or raised. */
  method Report(marks: seq<Mark>, e: Emit) returns (all: seq<Mark>, raised: bool)
    requires Kept(marks, e.file, e.round) && Open(marks) == {}
    requires Plausible(e) && Behind(marks, e.round, e.total, e.downloaded)
    ensures Kept(all, e.file, e.round) && Open(all) == {}
    ensures !e.done ==> Behind(all, e.round, e.total, e.downloaded)
    ensures StaysAlone(marks, all)
    ensures marks <= all && Told(all, e)
  {
    var c := NextCall(marks, e);
    AppendEnter(marks, e);
    AloneStays(marks, Enter(c));
    all, raised := marks + [Enter(c)], false;
    assert Enter(c) in all;
    var stage := 0;
    while stage < ROWS && !raised
      invariant stage <= ROWS && marks <= all && Enter(c) in all
      invariant Kept(all, e.file, e.round) && Open(all) == {c}
      invariant !e.done ==> Behind(all, e.round, e.total, e.downloaded)
      invariant StaysAlone(marks, all)
      decreases ROWS - stage, !raised
    {
      if * {
        raised := true;
      } else {
        AppendOther(all, Row(c, stage), e.file, e.round);
        all, stage := all + [Row(c, stage)], stage + 1;
      }
    }
    AppendOther(all, Leave(c), e.file, e.round);
    all := all + [Leave(c)];
  }

  // ---------- several files ----------

  /** Of two callbacks, the later one is of a later file, or later for the same file and in step with the earlier. */
  predicate Ordered(a: Callback, b: Callback) {
    a.emit.file <= b.emit.file && (a.emit.file == b.emit.file ==> a.id < b.id && InStep(a.emit, b.emit))
  }

  /** The marks of files up to `last`, fetched one after the other. */
  predicate InFileOrder(marks: seq<Mark>, last: nat) {
    && Nested(marks)
    && (forall m | m in marks :: m.call.emit.file <= last && Plausible(m.call.emit))
    && (forall i, j | 0 <= i < j < |marks| :: marks[i].call.emit.file <= marks[j].call.emit.file)
    && (forall i, j | 0 <= i < j < |marks| && marks[i].Enter? && marks[j].Enter? ::
        Ordered(marks[i].call, marks[j].call))
  }

  /** A mark of two logs in a row is a mark of one of them. */
  lemma MarkOf(marks: seq<Mark>, more: seq<Mark>, i: nat)
    requires i < |marks| + |more|
    ensures if i < |marks| then (marks + more)[i] == marks[i] && marks[i] in marks
            else (marks + more)[i] == more[i - |marks|] && more[i - |marks|] in more
  {
  }

  lemma NextFileOrdered(marks: seq<Mark>, file: nat, more: seq<Mark>, now: nat, i: nat, j: nat)
    requires marks == [] || (file > 0 && InFileOrder(marks, file - 1))
    requires Kept(more, file, now) && i < j < |marks| + |more|
    ensures var a, b := (marks + more)[i], (marks + more)[j];
            a.call.emit.file <= b.call.emit.file && (a.Enter? && b.Enter? ==> Ordered(a.call, b.call))
  {
    MarkOf(marks, more, i);
    MarkOf(marks, more, j);
  }

  lemma NextFile(marks: seq<Mark>, file: nat, more: seq<Mark>, now: nat)
    requires marks == [] || (file > 0 && InFileOrder(marks, file - 1) && Open(marks) == {})
    requires Kept(more, file, now)
    ensures InFileOrder(marks + more, file) && Open(marks + more) == Open(more)
  {
    var all := marks + more;
    OpenConcat(marks, more);
    forall i, j | 0 <= i < j < |all|
      ensures all[i].call.emit.file <= all[j].call.emit.file
      ensures all[i].Enter? && all[j].Enter? ==> Ordered(all[i].call, all[j].call)
    {
      NextFileOrdered(marks, file, more, now, i, j);
    }
  }

  /** The late one of two callbacks of a file has begun before the early one, and has been overtaken by it. */
  predicate Overtaken(late: Callback, early: Callback) {
    late.emit.file == early.emit.file && late.id < early.id
  }

  /** Two row updates of a file are in step in the order of their callbacks, which need not be the order of the rows. */
  lemma RowsFollowCallbacks(marks: seq<Mark>, last: nat, i: nat, j: nat)
    requires InFileOrder(marks, last) && i < j < |marks| && marks[i].Row? && marks[j].Row?
    ensures marks[i].call.emit.file <= marks[j].call.emit.file
    ensures Overtaken(marks[j].call, marks[i].call) ==> InStep(marks[j].call.emit, marks[i].call.emit)
    ensures !Overtaken(marks[j].call, marks[i].call) && marks[i].call.emit.file == marks[j].call.emit.file ==>
              InStep(marks[i].call.emit, marks[j].call.emit)
  {
    var a := HasBegun(marks, i);
    var b := HasBegun(marks, j);
    assert a < b ==> Ordered(marks[a].call, marks[b].call);
    assert b < a ==> Ordered(marks[b].call, marks[a].call);
  }

  /** A callback that began when no other was open has overtaken none. */
  lemma NoneOvertaken(marks: seq<Mark>, last: nat, k: nat, i: nat, j: nat)
    requires InFileOrder(marks, last) && k < i < j < |marks| && marks[i].Row? && marks[j].Row?
    requires marks[k] == Enter(marks[i].call) && Open(marks[..k]) == {}
    ensures !Overtaken(marks[j].call, marks[i].call)
  {
    if Overtaken(marks[j].call, marks[i].call) {
      NestedPrefix(marks, j);
      var b := BeganBetween(marks, k, j, marks[j].call);
      assert false;
    }
  }
}
