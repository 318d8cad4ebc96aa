/** The binding directory through its own operations: the writer's exclusive create, and what a
    reader does with one token when nobody interferes. */
module BindingFiles {
  import opened Bytes
  import opened BindingRuns

  // ---- the directory ----

  /** Names and the bytes behind them; link gives one file a second name. */
  class Directory {
    var files: map<Name, seq<byte>>

    constructor ()
      ensures files == map[]
    {
      files := map[];
    }
  }

  // ---- the writer ----

  datatype WriteResult = Written | OutputAlreadyExists | CreateFailed | OutputShortWrite | SyncFailed

  /** What the system does: whether create and fsync succeed, and what each os.write returns. */
  datatype WriterEnv = WriterEnv(creates: bool, writes: nat -> int, syncs: bool)

  /** write_exclusive: an existing name is never touched; success leaves the whole payload, however
      short the single writes were; any failure after the create removes the name again. */
  method WriteExclusive(d: Directory, name: Name, payload: seq<byte>, env: WriterEnv) returns (result: WriteResult)
    modifies d
    ensures name in old(d.files) ==> result == OutputAlreadyExists
    ensures result == Written ==>
      name !in old(d.files) && env.creates && env.syncs && d.files == old(d.files)[name := payload]
    ensures result != Written ==> d.files == old(d.files)
    ensures name !in old(d.files) && env.creates && env.syncs && (forall k :: env.writes(k) > 0) ==> result == Written
  {
    if name in d.files { return OutputAlreadyExists; }
    if !env.creates { return CreateFailed; }
    d.files := d.files[name := []];
    var total: nat := 0;
    var calls: nat := 0;
    var failed := false;
    while total < |payload| && !failed
      invariant total <= |payload|
      invariant d.files == old(d.files)[name := payload[..total]]
      invariant failed ==> exists k :: env.writes(k) <= 0
      decreases |payload| - total, if failed then 0 else 1
    {
      var written := env.writes(calls);
      calls := calls + 1;
      if written <= 0 {
        failed := true;
      } else {
        var n := if written <= |payload| - total then written else |payload| - total;
        d.files := d.files[name := d.files[name] + payload[total..total + n]];
        assert payload[..total] + payload[total..total + n] == payload[..total + n];
        total := total + n;
      }
    }
    if failed || !env.syncs {
      d.files := d.files - {name};
      assert d.files == old(d.files);
      return if failed then OutputShortWrite else SyncFailed;
    }
    assert payload[..total] == payload;
    return Written;
  }

  // ---- the reader ----

  datatype TokenResult =
    | Executed(ratio: nat) | NoRemainingBinding | AlreadyConsumed | BindingMissing | BindingInvalid
    | ConsumeUncertain | ActuatorFailed(ratio: nat)

  /** Whether link's fsync, unlink and unlink's fsync succeed, and the actuator's exit. */
  datatype ReaderEnv = ReaderEnv(linkSyncs: bool, unlinks: bool, unlinkSyncs: bool, actuatorOk: bool)

  /** The loop state of run_reader; started lists the ratios of the actuator commands it started. */
  class ReaderLoop {
    var next: nat
    var used: set<nat>
    ghost var started: seq<nat>

    constructor (initial: nat)
      requires 1 <= initial <= TRANSITION_COUNT
      ensures next == initial && used == {} && started == []
    {
      next, used, started := initial, {}, [];
    }

    /** consume_binding_once: the binding moves to its consumed name in two steps; when the second
        cannot be completed the outcome is uncertain and nothing is run. */
    method Consume(d: Directory, env: ReaderEnv) returns (failure: Option<TokenResult>)
      requires Pending(next) in d.files
      modifies d
      ensures failure == Some(AlreadyConsumed) <==> Consumed(next) in old(d.files)
      ensures failure == None <==> Consumed(next) !in old(d.files) && env.linkSyncs && env.unlinks && env.unlinkSyncs
      ensures failure == None ==>
        d.files == (old(d.files) - {Pending(next)})[Consumed(next) := old(d.files)[Pending(next)]]
      ensures Consumed(next) in d.files
      ensures failure in {None, Some(AlreadyConsumed), Some(ConsumeUncertain)}
      ensures forall n :: n in old(d.files) && n != Pending(next) ==> n in d.files && d.files[n] == old(d.files)[n]
    {
      if Consumed(next) in d.files { return Some(AlreadyConsumed); }
      d.files := d.files[Consumed(next) := d.files[Pending(next)]];
      if !env.linkSyncs { return Some(ConsumeUncertain); }
      if !env.unlinks { return Some(ConsumeUncertain); }
      d.files := d.files - {Pending(next)};
      if !env.unlinkSyncs { return Some(ConsumeUncertain); }
      return None;
    }

    /** Everything the next transition's command depends on. */
    static predicate Ready(next: nat, used: set<nat>, files: map<Name, seq<byte>>, decode: seq<byte> -> Option<Binding>,
                           env: ReaderEnv)
    {
      && next <= TRANSITION_COUNT && Consumed(next) !in files && Pending(next) in files
      && decode(files[Pending(next)]).Some?
      && env.linkSyncs && env.unlinks && env.unlinkSyncs
      && var binding := decode(files[Pending(next)]).value;
         binding.id !in used && binding.index == next && binding.ratio in {25, 50, 75, 100}
    }

    /** One accepted token: the actuator is started exactly when the binding of the next transition
        is there, unconsumed, valid and was consumed with certainty; then with that binding's
        ratio. Only a command that succeeded moves the reader on. */
    method HandleToken(d: Directory, decode: seq<byte> -> Option<Binding>, env: ReaderEnv) returns (result: TokenResult)
      modifies this, d
      ensures result.Executed? || result.ActuatorFailed? <==> Ready(old(next), old(used), old(d.files), decode, env)
      ensures Ready(old(next), old(used), old(d.files), decode, env) ==>
        && started == old(started) + [decode(old(d.files)[Pending(old(next))]).value.ratio]
        && d.files == (old(d.files) - {Pending(old(next))})[Consumed(old(next)) := old(d.files)[Pending(old(next))]]
        && used == old(used) + {decode(old(d.files)[Pending(old(next))]).value.id}
      ensures !Ready(old(next), old(used), old(d.files), decode, env) ==> started == old(started)
      ensures next == old(next) + if result.Executed? then 1 else 0
      ensures result == NoRemainingBinding <==> old(next) > TRANSITION_COUNT
      ensures result == AlreadyConsumed <==> old(next) <= TRANSITION_COUNT && Consumed(old(next)) in old(d.files)
      ensures result == BindingMissing <==>
        old(next) <= TRANSITION_COUNT && Consumed(old(next)) !in old(d.files) && Pending(old(next)) !in old(d.files)
      ensures result == ConsumeUncertain ==> Consumed(old(next)) in d.files
      ensures Consumed(old(next)) in old(d.files) ==> started == old(started) && d.files == old(d.files)
    {
      if next > TRANSITION_COUNT { return NoRemainingBinding; }
      if Consumed(next) in d.files { return AlreadyConsumed; }
      if Pending(next) !in d.files { return BindingMissing; }
      ghost var was := d.files;
      var parsed := decode(d.files[Pending(next)]);
      if parsed == None { return BindingInvalid; }
      var binding := parsed.value;
      if binding.id in used || binding.index != next || binding.ratio !in ALLOWED_RATIOS { return BindingInvalid; }
      var failure := Consume(d, env);
      if failure.Some? { return failure.value; }
      assert d.files == (was - {Pending(next)})[Consumed(next) := was[Pending(next)]];
      used := used + {binding.id};
      started := started + [binding.ratio];
      if !env.actuatorOk { return ActuatorFailed(binding.ratio); }
      next := next + 1;
      return Executed(binding.ratio);
    }
  }
}
