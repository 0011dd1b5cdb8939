/**
 * The format registry: three tables keyed by format name, holding each
 * format's detection, extraction and reformatting function, updated in
 * place by `register_format`. Python dictionaries remember the order in
 * which keys were first inserted, and the dispatcher offers lines to the
 * detectors in that order, so the registry keeps it as well.
 */
module Register {

  /** Names without repetition. */
  predicate Distinct(names: seq<string>)
  {
    forall i, j :: 0 <= i < j < |names| ==> names[i] != names[j]
  }

  /** The order of first insertion once `name` has been registered. */
  function Inserted(order: seq<string>, name: string): (r: seq<string>)
    ensures Distinct(order) ==> Distinct(r)
    ensures (set n | n in r) == (set n | n in order) + {name}
    ensures name in order ==> r == order
    ensures name !in order ==> r == order + [name]
  {
    if name in order then order else order + [name]
  }

  /** The message of the `RuntimeWarning` issued when a name is registered again. */
  function AlreadyRegistered(name: string): string
  {
    name + " already registered"
  }

  /** The entries of `table` under the names of `order`, in that order. */
  function ItemsOf<D>(order: seq<string>, table: map<string, D>): (items: seq<(string, D)>)
    requires forall i :: 0 <= i < |order| ==> order[i] in table
    ensures |items| == |order|
    ensures forall i :: 0 <= i < |items| ==> items[i] == (order[i], table[order[i]])
  {
    if order == [] then [] else [(order[0], table[order[0]])] + ItemsOf(order[1..], table)
  }

  class Registry<D, E, R> {
    var detection: map<string, D>
    var extraction: map<string, E>
    var reformatting: map<string, R>
    var order: seq<string>      // keys in order of first insertion
    var warnings: seq<string>   // warnings issued so far, oldest first

    /** The three tables share one key set, which `order` lists once each. */
    ghost predicate Valid()
      reads this
    {
      detection.Keys == extraction.Keys == reformatting.Keys
      && Distinct(order)
      && (forall n :: n in order <==> n in detection)
    }

    /** The module-level tables start out empty. */
    constructor ()
      ensures Valid()
      ensures detection == map[] && extraction == map[] && reformatting == map[]
      ensures order == [] && warnings == []
    {
      detection := map[];
      extraction := map[];
      reformatting := map[];
      order := [];
      warnings := [];
    }

    /**
     * `register_format`: warns when the name is taken, then stores the three
     * functions under it; the last registration wins, other names keep their
     * entries, and a name keeps the place of its first registration.
     */
    method RegisterFormat(name: string, d: D, e: E, r: R)
      requires Valid()
      modifies this
      ensures Valid()
      ensures detection == old(detection)[name := d]
      ensures extraction == old(extraction)[name := e]
      ensures reformatting == old(reformatting)[name := r]
      ensures order == Inserted(old(order), name)
      ensures warnings == old(warnings) + (if name in old(detection) then [AlreadyRegistered(name)] else [])
    {
      if name in detection {
        warnings := warnings + [AlreadyRegistered(name)];
      }
      detection := detection[name := d];
      extraction := extraction[name := e];
      reformatting := reformatting[name := r];
      order := Inserted(order, name);
    }

    /** The entries of the detection table in insertion order, as `detection_funcs.items()` yields them. */
    function Items(): (items: seq<(string, D)>)
      reads this
      requires Valid()
      ensures |items| == |order|
      ensures forall i :: 0 <= i < |items| ==> items[i] == (order[i], detection[order[i]])
    {
      ItemsOf(order, detection)
    }
  }
}
