/** Approach families: the registry and its transitions. */
module Registries {
  datatype Status = Active | Blocked | Exhausted

  datatype Approach = Approach(
    family: string,
    mechanism: string,
    status: Status,
    attempts: int,
    blockReason: string,
    lastNewMechanism: string)

  type View = map<string, Approach>

  function NewApproach(family: string, mechanism: string): Approach {
    Approach(family, mechanism, Active, 1, "", "")
  }

  function BlockedApproach(a: Approach, reason: string): Approach {
    a.(status := Blocked, blockReason := reason)
  }

  function ReopenedApproach(a: Approach, mechanism: string): Approach {
    a.(status := Active, attempts := a.attempts + 1, lastNewMechanism := mechanism, blockReason := "")
  }

  predicate CanAdd(view: View, family: string, mechanism: string) {
    family != "" && mechanism != "" && family !in view
  }

  predicate CanBlock(view: View, family: string, reason: string) { family in view && reason != "" }

  /** A blocked family reopens only on a mechanism it was not last opened with. */
  predicate CanReopen(view: View, family: string, mechanism: string) {
    && family in view
    && view[family].status == Blocked
    && mechanism != "" && mechanism != view[family].mechanism && mechanism != view[family].lastNewMechanism
  }

  class Registry {
    var approaches: View

    constructor ()
      ensures approaches == map[]
    {
      approaches := map[];
    }

    method Add(family: string, mechanism: string) returns (ok: bool)
      modifies this
      ensures ok <==> family != "" && mechanism != "" && family !in old(approaches)
      ensures approaches == if ok then old(approaches)[family := Approach(family, mechanism, Active, 1, "", "")]
                            else old(approaches)
    {
      if family == "" || mechanism == "" {
        return false;
      }
      if family in approaches {
        return false;
      }
      approaches := approaches[family := Approach(family, mechanism, Active, 1, "", "")];
      ok := true;
    }

    method Block(family: string, reason: string) returns (ok: bool)
      modifies this
      ensures ok <==> family in old(approaches) && reason != ""
      ensures approaches ==
              if ok then old(approaches)[family := old(approaches)[family].(status := Blocked, blockReason := reason)]
              else old(approaches)
    {
      if family !in approaches || reason == "" {
        return false;
      }
      var approach := approaches[family];
      approach := approach.(status := Blocked);
      approach := approach.(blockReason := reason);
      approaches := approaches[family := approach];
      ok := true;
    }

    method Reopen(family: string, newMechanism: string) returns (ok: bool)
      modifies this
      ensures ok <==> && family in old(approaches) && old(approaches)[family].status == Blocked && newMechanism != ""
                      && newMechanism != old(approaches)[family].mechanism
                      && newMechanism != old(approaches)[family].lastNewMechanism
      ensures approaches ==
              if ok
              then var a := old(approaches)[family];
                   old(approaches)[family := a.(status := Active, blockReason := "", attempts := a.attempts + 1,
                                                lastNewMechanism := newMechanism)]
              else old(approaches)
    {
      if family !in approaches {
        return false;
      }
      var approach := approaches[family];
      if approach.status != Blocked {
        return false;
      }
      if newMechanism == "" || newMechanism == approach.mechanism || newMechanism == approach.lastNewMechanism {
        return false;
      }
      approach := approach.(status := Active, attempts := approach.attempts + 1);
      approach := approach.(lastNewMechanism := newMechanism, blockReason := "");
      approaches := approaches[family := approach];
      ok := true;
    }

    method Exhaust(family: string) returns (ok: bool)
      modifies this
      ensures ok <==> family in old(approaches)
      ensures approaches == if ok then old(approaches)[family := old(approaches)[family].(status := Exhausted)]
                            else old(approaches)
    {
      if family !in approaches {
        return false;
      }
      approaches := approaches[family := approaches[family].(status := Exhausted)];
      ok := true;
    }

    method Set(family: string, approach: Approach) returns (ok: bool)
      modifies this
      ensures ok <==> family in old(approaches)
      ensures approaches == if ok then old(approaches)[family := approach.(family := family)] else old(approaches)
    {
      if family !in approaches {
        return false;
      }
      approaches := approaches[family := approach.(family := family)];
      ok := true;
    }

    method RecordDispatch(family: string) returns (ok: bool)
      modifies this
      ensures ok <==> family in old(approaches) && old(approaches)[family].status == Active
      ensures approaches ==
              if ok then var a := old(approaches)[family]; old(approaches)[family := a.(attempts := a.attempts + 1)]
              else old(approaches)
    {
      if family !in approaches || approaches[family].status != Active {
        return false;
      }
      approaches := approaches[family := approaches[family].(attempts := approaches[family].attempts + 1)];
      ok := true;
    }
  }
}
