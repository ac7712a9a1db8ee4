/**
 * The framework's base model (src/model/Model.js): the tick counter and the
 * state fingerprint the root UI frame compares before re-rendering.
 *
 * The coordinator is an external collaborator; the calls the model makes on
 * it are returned as a trace of `CoordinatorCall` values.
 */
module Model {
  import opened Wrappers

  /** `Model.stateHash`: the empty string until the first update, then the tick number. */
  datatype StateHash = Text(s: string) | Ticks(n: int)

  /** A call the model makes on its coordinator. */
  datatype CoordinatorCall =
    | NewEvent(kind: string, message: string)
    | RegisterInputs(kinds: seq<string>)
    | RegisterEvents(kinds: seq<string>)

  const InitialHash: StateHash := Text("")

  /** The calls the base `_load` makes: one debug event announcing the load. */
  const LoadCalls: seq<CoordinatorCall> := [NewEvent("debug", "loading")]

  /** `_calculateStateHash`: the fingerprint of the state after a tick. */
  function HashOfTick(tick: int): (h: StateHash)
    ensures h != InitialHash
  {
    Ticks(tick)
  }

  /** The fingerprint after an update depends on the tick alone, and different ticks differ. */
  lemma HashOfTickInjective(a: int, b: int)
    ensures HashOfTick(a) == HashOfTick(b) <==> a == b
  {
  }

  /** The calls `init` makes on the coordinator, given whether it loads. */
  function InitCalls(loads: bool, inputs: seq<string>, events: seq<string>): (calls: seq<CoordinatorCall>)
    ensures |calls| == if loads then 3 else 2
    ensures calls[|calls| - 2] == RegisterInputs(inputs) && calls[|calls| - 1] == RegisterEvents(events)
    ensures loads ==> calls[0] == NewEvent("debug", "loading")
  {
    (if loads then LoadCalls else []) + [RegisterInputs(inputs), RegisterEvents(events)]
  }

  /** The base model, with its construction parameters of type `P` left opaque. */
  class Model<P> {
    var params: P
    var handledInputs: seq<string>
    var handledEvents: seq<string>
    var ticksElapsed: int
    var stateHash: StateHash
    /** The coordinator the model was initialised with, by handle. */
    var coordinator: Option<nat>

    constructor(params: P)
      ensures this.params == params
      ensures handledInputs == [] && handledEvents == []
      ensures ticksElapsed == 0 && stateHash == InitialHash
      ensures coordinator == None
    {
      this.params := params;
      handledInputs := [];
      handledEvents := [];
      ticksElapsed := 0;
      stateHash := InitialHash;
      coordinator := None;
    }

    /** `_load`: the base version only announces itself. */
    method Load(params: P) returns (calls: seq<CoordinatorCall>)
      ensures calls == LoadCalls
    {
      calls := LoadCalls;
    }

    /**
     * `init`: remembers the coordinator, loads from the constructor's
     * parameters only when no parameters are passed here, and registers the
     * model's own input and event kinds.
     */
    method Init(coordinator: nat, params: Option<P>) returns (calls: seq<CoordinatorCall>)
      modifies this`coordinator
      ensures this.coordinator == Some(coordinator)
      ensures calls == InitCalls(params.None?, handledInputs, handledEvents)
    {
      this.coordinator := Some(coordinator);
      calls := [];
      if params.None? {
        calls := Load(this.params);
      }
      calls := calls + [RegisterInputs(handledInputs), RegisterEvents(handledEvents)];
    }

    /** `_calculateStateHash`. */
    method CalculateStateHash()
      modifies this`stateHash
      ensures stateHash == HashOfTick(ticksElapsed)
    {
      stateHash := Ticks(ticksElapsed);
    }

    /** `update`: records the tick, runs the (empty) `_update` hook, then refreshes the fingerprint. */
    method Update(tick: int)
      modifies this`ticksElapsed, this`stateHash
      ensures ticksElapsed == tick
      ensures stateHash == HashOfTick(tick)
    {
      ticksElapsed := tick;
      CalculateStateHash();
    }
  }
}
