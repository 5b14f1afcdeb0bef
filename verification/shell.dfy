/**
 * What one command of the interactive shell produces: the lines it prints,
 * as values, and the exception it lets escape, if any.
 */
module Shell {
  import opened Wrappers
  import opened DeviceModel

  /** The exceptions a command can raise. */
  datatype Fault =
    | InvalidName(id: string)         // an actor name the actor system does not accept
    | InvalidKey(id: string)          // a grain key the runtime does not accept
    | DuplicateId(id: string)         // creating an actor or dictionary entry under a taken id
    | BadNumber(text: string)         // int.Parse / double.Parse rejected the argument
    | IndexOutOfRange                 // `parts[0]` on an empty argument array
    | InvalidOperation(message: string) // a device refused the command

  datatype Reply =
    | HelpText
    | UnknownCommand
    | Usage(message: string)
    | NotFound(id: string)
    | Created(id: string)
    | Removed(id: string)
    | Notice(message: string)
    | Listing(count: nat, ids: seq<string>)
    | Delivered(id: string, outcome: Outcome)
    | Caught(fault: Fault)

  /** The lines a command printed and the exception it raised. */
  datatype Effect = Effect(lines: seq<Reply>, fault: Option<Fault>)

  /** How one pass of the command loop ends. */
  datatype Control = Continue(lines: seq<Reply>) | Exit | Crash(lines: seq<Reply>, fault: Fault)

  const SpecifyId: string := "Specify a device id."
  const SpecifyFarads: string := "Specify a device id and farad count."
  const SpecifyUnits: string := "Specify a device id and units."

  predicate Distinct(ids: seq<string>) {
    forall i, j | 0 <= i < j < |ids| :: ids[i] != ids[j]
  }

  /** `ids` lists every element of `keys` exactly once, in some order. */
  predicate Enumerates(ids: seq<string>, keys: set<string>) {
    && Distinct(ids)
    && (forall i | 0 <= i < |ids| :: ids[i] in keys)
    && (forall k | k in keys :: k in ids)
  }

  /** A `foreach` over a dictionary's keys or a hash set, in the collection's own order. */
  method Enumerate(keys: set<string>) returns (ids: seq<string>)
    ensures Enumerates(ids, keys) && |ids| == |keys|
  {
    var remaining := keys;
    ids := [];
    while remaining != {}
      invariant remaining <= keys
      invariant Distinct(ids)
      invariant forall i | 0 <= i < |ids| :: ids[i] in keys && ids[i] !in remaining
      invariant forall k | k in keys :: k in remaining || k in ids
      invariant |ids| + |remaining| == |keys|
      decreases remaining
    {
      var k :| k in remaining;
      ids := ids + [k];
      remaining := remaining - {k};
    }
  }
}
