/**
 * `NewRelicTrait`: the transaction-name slot that a controller component or
 * a shell mixes in, and the `start` that falls back to it.
 */
module Traits {
  import opened Php
  import opened Naming
  import Lib

  /**
   * The name `setName` stores for its argument. `None` stands for an
   * argument that is neither a shell nor a server request.
   */
  function NameFor(argument: Option<WorkUnit>): string
  {
    match argument
    case None => ""
    case Some(Request(_, _, _, _, _)) => DeriveNameFromRequest(argument.value)
    case Some(Shell(_, _, _)) => DeriveNameFromShell(argument.value)
  }

  /** The most recent entry of a history, or `null` for an empty one. */
  ghost function Latest(names: seq<string>): Option<string> {
    if names == [] then None else Some(names[|names| - 1])
  }

  class NewRelicTrait {
    /** `_newrelicTransactionName`; `null` until the first `setName`. */
    var transactionName: Option<string>
    /** Every name `setName` has stored, oldest first. */
    ghost var stored: seq<string>

    ghost predicate Valid()
      reads this
    {
      transactionName == Latest(stored)
    }

    constructor ()
      ensures Valid() && stored == []
    {
      transactionName := None;
      stored := [];
    }

    /**
     * `setName`: derives the name from a shell or a request, stores "" for
     * anything else, and replaces whatever was stored before.
     */
    method SetName(argument: Option<WorkUnit>)
      requires Valid()
      modifies this
      ensures Valid()
      ensures stored == old(stored) + [NameFor(argument)]
      ensures transactionName == Some(NameFor(argument))
    {
      var name := "";
      if argument.Some? && argument.value.Shell? {
        name := DeriveNameFromShell(argument.value);
      }
      if argument.Some? && argument.value.Request? {
        name := DeriveNameFromRequest(argument.value);
      }
      transactionName := Some(name);
      stored := stored + [name];
    }

    /** `getName`: exactly the name the last `setName` stored, `null` before any. */
    function GetName(): (r: Option<string>)
      requires Valid()
      reads this
      ensures r == Latest(stored)
      ensures r.None? <==> stored == []
    {
      transactionName
    }

    /** `_getTransactionName`: a truthy explicit name wins, otherwise the stored one. */
    function GetTransactionName(name: Option<string>): (r: Option<string>)
      requires Valid()
      reads this
      ensures TruthyOrNull(name) ==> r == name
      ensures !TruthyOrNull(name) ==> r == Latest(stored)
      ensures r == name || r == GetName()
    {
      if TruthyOrNull(name) then name else transactionName
    }

    /**
     * `start`: `NewRelic::start` with the explicit name, or the stored one
     * when the explicit one is falsy; the stored name is left as it was.
     */
    method Start(name: Option<string>, newRelic: Lib.NewRelic)
      requires Valid()
      modifies newRelic`log, newRelic`currentTransactionName
      ensures Valid() && stored == old(stored)
      ensures var chosen := GetTransactionName(name);
        if old(newRelic.available) then
          && newRelic.currentTransactionName == (if TruthyOrNull(chosen) then chosen else old(newRelic.currentTransactionName))
          && newRelic.log == old(newRelic.log) + [Lib.StartTransaction, Lib.NameTransaction(newRelic.currentTransactionName)]
        else
          && newRelic.currentTransactionName == old(newRelic.currentTransactionName)
          && newRelic.log == old(newRelic.log)
    {
      newRelic.Start(GetTransactionName(name));
    }
  }
}
