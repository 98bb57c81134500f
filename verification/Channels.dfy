// Channel promotion over all interleavings: it refines an atomic compare-and-set register, and the
// history of a channel has no gaps.

module Channels {
  import opened Basics
  import opened References
  import opened Resources
  import opened Tables
  import opened Clients
  import opened Invariants
  import opened Systems

  // ---------------------------------------------------------------- the history of a channel

  // Every version from 1 to that of an existing row has its row.
  lemma {:induction false} RowsBelow(t: Tables, row: ChannelRow, v: int)
    requires ChannelsOk(t) && Inserted(t, row) && 1 <= v <= row.pointerVersion
    ensures ChannelVersionId(row.channel, v) in t.channels
    ensures var r := t.channels[ChannelVersionId(row.channel, v)]; r.channel == row.channel && r.pointerVersion == v
    decreases row.pointerVersion
  {
    hide ChannelVersionId;
    RowsAreKeyed(t, row.channel, row.pointerVersion);
    if v < row.pointerVersion {
      var w := row.pointerVersion - 1;
      RowsAreKeyed(t, row.channel, w);
      RowsBelow(t, t.channels[ChannelVersionId(row.channel, w)], v);
    }
  }

  // The row under a channel's key is that channel's row of that version.
  lemma RowsAreKeyed(t: Tables, c: Channel, v: int)
    requires ChannelsOk(t) && v >= 0
    ensures ChannelVersionId(c, v) in t.channels ==>
              var r := t.channels[ChannelVersionId(c, v)]; r.channel == c && r.pointerVersion == v && v >= 1
  {
    if ChannelVersionId(c, v) in t.channels {
      var r := t.channels[ChannelVersionId(c, v)];
      ChannelVersionIdInjective(c, v, r.channel, r.pointerVersion);
    }
  }

  // The rows of the channel have exactly the pointer versions 1..n, one row each.
  ghost predicate HistoryIs(channels: map<string, ChannelRow>, c: Channel, n: nat) {
    && (forall v: nat :: ChannelVersionId(c, v) in channels <==> 1 <= v <= n)
    && (forall id | id in channels && channels[id].channel == c ::
          1 <= channels[id].pointerVersion <= n && id == ChannelVersionId(c, channels[id].pointerVersion))
  }

  // In every reachable state the history of every channel is without gaps.
  lemma HistoryHasNoGaps(codec: Codec, events: seq<Event>, c: Channel)
    ensures exists n: nat :: HistoryIs(Run(codec, events).tables.channels, c, n)
  {
    hide ChannelVersionId, Run, MetadataOk, ProvenanceOk, ObjectsOk, OrphansOk, ClientOk, Credited, LatestRow;
    Reachable(codec, events);
    var t := Run(codec, events).tables;
    LatestRowIsLatest(t, c);
    var n: nat := if LatestRow(t.channels, c).None? then 0 else LatestRow(t.channels, c).value.pointerVersion;
    forall v: nat
      ensures ChannelVersionId(c, v) in t.channels <==> 1 <= v <= n
    {
      RowsAreKeyed(t, c, v);
      if 1 <= v <= n {
        RowsBelow(t, LatestRow(t.channels, c).value, v);
      }
    }
    assert HistoryIs(t.channels, c, n);
  }

  // ---------------------------------------------------------------- the atomic register

  // A pointer register: the version (0 before any promotion) and the target it holds.
  datatype Register = Register(version: int, target: Option<string>)

  // One compare-and-set, as a promoter asked for it, and whether it succeeded.
  datatype Cas = Cas(client: nat, channel: Channel, expected: int, target: string, success: bool)

  function At(registers: map<Channel, Register>, c: Channel): Register {
    if c in registers then registers[c] else Register(0, None)
  }

  function Replay(ops: seq<Cas>): map<Channel, Register> {
    if ops == [] then map[]
    else
      var before, op := Replay(ops[..|ops| - 1]), ops[|ops| - 1];
      if At(before, op.channel).version == op.expected
      then before[op.channel := Register(op.expected + 1, Some(op.target))]
      else before
  }

  // Each operation answers what the atomic registers answer at its turn.
  predicate Legal(ops: seq<Cas>) {
    ops != [] ==>
      var op := ops[|ops| - 1];
      && Legal(ops[..|ops| - 1])
      && (op.success <==> At(Replay(ops[..|ops| - 1]), op.channel).version == op.expected)
  }

  // The register that the channel table stands for.
  function Holds(t: Tables, c: Channel): Register {
    match LatestRow(t.channels, c)
    case None => Register(0, None)
    case Some(row) => Register(row.pointerVersion, Some(row.target))
  }

  // ---------------------------------------------------------------- linearisation points

  // The compare-and-set that takes effect in a step: at the read if the version read is not the
  // expected one, and otherwise at the insert, if the insert reaches the store.
  function Effect(codec: Codec, s: System, e: Event): seq<Cas> {
    if !e.Step? || !Running(s, e.id) then []
    else
      match s.clients[e.id]
      case PromRead(resource, p, _) =>
        var c := ChannelOf(resource, p);
        if e.fault == NoFault && Holds(s.tables, c).version != p.expected
        then [Cas(e.id, c, p.expected, resource.Id(), false)] else []
      case PromInsert(row, p, _) =>
        if e.fault.LostRequest? then []
        else [Cas(e.id, row.channel, p.expected, row.target,
                  row.pointerVersion >= 0 && ChannelVersionId(row.channel, row.pointerVersion) !in s.tables.channels)]
      case _ => []
  }

  function History(codec: Codec, events: seq<Event>): seq<Cas> {
    if events == [] then []
    else
      var n := |events| - 1;
      History(codec, events[..n]) + Effect(codec, Run(codec, events[..n]), events[n])
  }

  // ---------------------------------------------------------------- the channel table as a register

  lemma LatestUnique(t: Tables, row: ChannelRow)
    requires ChannelsOk(t) && Inserted(t, row)
    requires forall id | id in t.channels && t.channels[id].channel == row.channel :: t.channels[id].pointerVersion <= row.pointerVersion
    ensures LatestRow(t.channels, row.channel) == Some(row)
  {
    hide ChannelVersionId, LatestRow;
    LatestRowIsLatest(t, row.channel);
    RowsAreKeyed(t, row.channel, row.pointerVersion);
  }

  // An insert that finds its key free finds the register at the expected version, and moves it.
  lemma InsertMovesRegister(codec: Codec, t: Tables, row: ChannelRow)
    requires ChannelsOk(t) && HasPredecessor(t.channels, row)
    requires ChannelVersionId(row.channel, row.pointerVersion) !in t.channels
    ensures Holds(t, row.channel).version == row.pointerVersion - 1
    ensures var u := ExecPutChannel(t, row).0;
            forall c :: Holds(u, c) == if c == row.channel then Register(row.pointerVersion, Some(row.target)) else Holds(t, c)
  {
    hide ChannelVersionId, LatestRow;
    var c := row.channel;
    LatestRowIsLatest(t, c);
    if LatestRow(t.channels, c).Some? {
      var latest := LatestRow(t.channels, c).value;
      if latest.pointerVersion >= row.pointerVersion {
        RowsBelow(t, latest, row.pointerVersion);
      }
    }
    if row.pointerVersion > 1 {
      RowsAreKeyed(t, c, row.pointerVersion - 1);
    }
    var u := ExecPutChannel(t, row).0;
    var stored := row.(recordVersion := Some(Num(1)));
    assert ChannelsOk(u);
    LatestUnique(u, stored);
    forall d | d != c
      ensures Holds(u, d) == Holds(t, d)
    {
      LatestRowIsLatest(t, d);
      LatestRowIsLatest(u, d);
      if LatestRow(t.channels, d).Some? {
        LatestUnique(u, LatestRow(t.channels, d).value);
      }
    }
  }

  // A conflicting insert finds the register past the expected version.
  lemma ConflictMeansMoved(t: Tables, row: ChannelRow)
    requires ChannelsOk(t) && row.pointerVersion >= 1
    requires ChannelVersionId(row.channel, row.pointerVersion) in t.channels
    ensures Holds(t, row.channel).version >= row.pointerVersion
  {
    hide ChannelVersionId, LatestRow;
    RowsAreKeyed(t, row.channel, row.pointerVersion);
    LatestRowIsLatest(t, row.channel);
  }

  lemma OnlyInsertsTouchChannels(codec: Codec, t: Tables, c: Client, fault: Fault)
    requires !c.Done?
    requires c.PromInsert? ==> fault.LostRequest? || c.pointer.pointerVersion < 0
                               || ChannelVersionId(c.pointer.channel, c.pointer.pointerVersion) in t.channels
    ensures Perform(codec.sha, t, NextCall(c), fault).0.channels == t.channels
  {
    hide ChannelVersionId, ResourceId, ObjectId, OrphanCandidateId, LatestRow, ExecListObjects;
  }

  // Each step acts on the registers exactly as its effect does.
  lemma StepActsAsCas(codec: Codec, s: System, e: Event)
    requires SystemOk(codec, s)
    ensures var u := Apply(codec, s, e).tables;
            var ops := Effect(codec, s, e);
            |ops| <= 1 &&
            if ops == [] then u.channels == s.tables.channels
            else
              var op := ops[0];
              && (op.success <==> Holds(s.tables, op.channel).version == op.expected)
              && forall c :: Holds(u, c) ==
                   if op.success && c == op.channel then Register(op.expected + 1, Some(op.target)) else Holds(s.tables, c)
  {
    hide ChannelVersionId, ResourceId, LatestRow, Resume, MetadataOk, ProvenanceOk, ObjectsOk, OrphansOk, ExecPutChannel,
         Start, Credited, HasPredecessor, FinishOk;
    if e.Step? && Running(s, e.id) {
      var c := s.clients[e.id];
      assert ClientOk(codec, s.tables, c);
      if c.PromInsert? && !e.fault.LostRequest? {
        var row := c.pointer;
        PositiveVersion(s.tables.channels, row);
        if ChannelVersionId(row.channel, row.pointerVersion) in s.tables.channels {
          ConflictMeansMoved(s.tables, row);
          OnlyInsertsTouchChannels(codec, s.tables, c, e.fault);
        } else {
          InsertMovesRegister(codec, s.tables, row);
        }
      } else {
        OnlyInsertsTouchChannels(codec, s.tables, c, e.fault);
      }
    }
  }

  lemma PositiveVersion(channels: map<string, ChannelRow>, row: ChannelRow)
    requires HasPredecessor(channels, row)
    ensures row.pointerVersion >= 1
  {
  }

  // Every run of the promoters is a run of atomic compare-and-set registers: the operations, in the
  // order in which they take effect, get the answers the registers give, and the table always
  // stands for the registers.
  lemma {:induction false} PromotionRefinesCas(codec: Codec, events: seq<Event>)
    ensures Legal(History(codec, events))
    ensures forall c :: Holds(Run(codec, events).tables, c) == At(Replay(History(codec, events)), c)
  {
    hide Holds, Apply, Effect, SystemOk;
    if events == [] {
      EmptyRegisters();
    } else {
      var n := |events| - 1;
      var before, s, e := History(codec, events[..n]), Run(codec, events[..n]), events[n];
      PromotionRefinesCas(codec, events[..n]);
      Reachable(codec, events[..n]);
      StepActsAsCas(codec, s, e);
      var ops := Effect(codec, s, e);
      if ops == [] {
        assert before + ops == before;
        SameChannelsSameRegisters(s.tables, Apply(codec, s, e).tables);
      } else {
        var after := before + ops;
        assert after[..|after| - 1] == before && after[|after| - 1] == ops[0];
      }
    }
  }

  lemma SameChannelsSameRegisters(t: Tables, u: Tables)
    requires t.channels == u.channels
    ensures forall c :: Holds(t, c) == Holds(u, c)
  {
  }

  lemma NoRows(c: Channel)
    ensures LatestRow(EMPTY.channels, c) == None
  {
    assert KeysOf(EMPTY.channels, c) == {};
  }

  lemma EmptyRegisters()
    ensures forall c :: Holds(EMPTY, c) == Register(0, None)
  {
    hide ChannelVersionId;
    forall c
      ensures Holds(EMPTY, c) == Register(0, None)
    {
      assert KeysOf(EMPTY.channels, c) == {};
    }
  }

  // ---------------------------------------------------------------- one winner for each version

  lemma {:induction false} VersionsRise(ops: seq<Cas>, i: nat, c: Channel)
    requires i <= |ops|
    ensures At(Replay(ops[..i]), c).version <= At(Replay(ops), c).version
  {
    if i < |ops| {
      var n := |ops| - 1;
      VersionsRise(ops[..n], i, c);
      assert ops[..n][..i] == ops[..i];
    } else {
      assert ops[..i] == ops;
    }
  }

  lemma {:induction false} LegalAt(ops: seq<Cas>, k: nat)
    requires Legal(ops) && k < |ops|
    ensures ops[k].success <==> At(Replay(ops[..k]), ops[k].channel).version == ops[k].expected
    ensures Legal(ops[..k])
  {
    if k < |ops| - 1 {
      LegalAt(ops[..|ops| - 1], k);
      assert ops[..|ops| - 1][..k] == ops[..k];
    }
  }

  // At most one promoter ever succeeds for a given channel and expected version.
  lemma OneWinner(codec: Codec, events: seq<Event>, i: nat, j: nat)
    requires var ops := History(codec, events);
             && i < |ops| && j < |ops| && ops[i].success && ops[j].success
             && ops[i].channel == ops[j].channel && ops[i].expected == ops[j].expected
    ensures i == j
  {
    hide Holds;
    PromotionRefinesCas(codec, events);
    if i < j {
      WinnersDiffer(History(codec, events), i, j);
    } else if j < i {
      WinnersDiffer(History(codec, events), j, i);
    }
  }

  lemma WinnersDiffer(ops: seq<Cas>, i: nat, j: nat)
    requires Legal(ops) && i < j < |ops| && ops[i].success && ops[j].success && ops[i].channel == ops[j].channel
    ensures ops[i].expected < ops[j].expected
  {
    LegalAt(ops, i);
    LegalAt(ops, j);
    var c := ops[i].channel;
    assert ops[..i + 1][..i] == ops[..i];
    assert At(Replay(ops[..i + 1]), c).version == ops[i].expected + 1;
    VersionsRise(ops[..j], i + 1, c);
    assert ops[..j][..i + 1] == ops[..i + 1];
  }
}
