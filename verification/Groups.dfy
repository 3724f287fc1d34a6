/** Per-group concurrency limits: `dispatcher/groups.go`. */
module Groups {

  function ActiveCount(active: map<string, nat>, group: string): nat {
    if group in active then active[group] else 0
  }

  /** A positive limit is configured for a named group. */
  predicate Limited(limits: map<string, int>, group: string) {
    group != "" && group in limits && limits[group] > 0
  }

  predicate CanAcquire(limits: map<string, int>, active: map<string, nat>, group: string) {
    Limited(limits, group) ==> ActiveCount(active, group) < limits[group]
  }

  function Acquired(active: map<string, nat>, group: string): map<string, nat> {
    if group == "" then active else active[group := ActiveCount(active, group) + 1]
  }

  /** The count never goes below zero, whether or not the group was acquired before. */
  function Released(active: map<string, nat>, group: string): map<string, nat> {
    if group == "" || ActiveCount(active, group) == 0 then active
    else active[group := active[group] - 1]
  }

  /** `groupManager`. */
  class GroupManager {
    const limits: map<string, int>
    var active: map<string, nat>

    constructor (limits: map<string, int>)
      ensures this.limits == limits && active == map[]
    {
      this.limits := limits;
      active := map[];
    }

    method CanStart(group: string) returns (ok: bool)
      ensures ok == CanAcquire(limits, active, group)
    {
      if group == "" { return true; }
      if group !in limits || limits[group] <= 0 { return true; }
      var running := if group in active then active[group] else 0;
      return running < limits[group];
    }

    method Acquire(group: string)
      modifies this
      ensures active == Acquired(old(active), group)
    {
      if group == "" { return; }
      active := active[group := (if group in active then active[group] else 0) + 1];
    }

    method Release(group: string)
      modifies this
      ensures active == Released(old(active), group)
    {
      if group == "" { return; }
      if group in active && active[group] > 0 {
        active := active[group := active[group] - 1];
      }
    }
  }
}
