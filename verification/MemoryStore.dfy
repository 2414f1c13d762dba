/**
 * The in-memory incident store. `Lookup` walks the map in whatever order it comes and
 * keeps the most recent live incident; what it may answer is `IsLookup`.
 */
module MemoryStore {
  import opened Wrappers
  import opened Domain

  type Incidents = map<string, Incident>

  /** Unresolved, of this key, and last alerted no longer than `window` before `now`. */
  predicate Live(inc: Incident, key: string, now: Time, window: Time) {
    inc.key == key && inc.state != Resolved && now - inc.lastAlertAt <= window
  }

  /** Every answer the lookup may give, as the identifier of the incident it returns. */
  ghost predicate IsLookup(m: Incidents, key: string, now: Time, window: Time, found: Option<string>) {
    match found
    case None => forall id | id in m :: !Live(m[id], key, now, window)
    case Some(best) =>
      && best in m
      && Live(m[best], key, now, window)
      && forall id | id in m && Live(m[id], key, now, window) :: m[id].lastAlertAt <= m[best].lastAlertAt
  }

  /** Incidents are stored under their own identifiers. */
  ghost predicate Indexed(m: Incidents) {
    forall id | id in m :: m[id].id == id
  }

  ghost predicate AtMostOneLive(m: Incidents, key: string, now: Time, window: Time) {
    forall a, b | a in m && b in m :: Live(m[a], key, now, window) && Live(m[b], key, now, window) ==> a == b
  }

  /** Two answers of one lookup can only differ by a tie between two live incidents. */
  lemma LookupsTie(m: Incidents, key: string, now: Time, window: Time, a: Option<string>, b: Option<string>)
    requires IsLookup(m, key, now, window, a) && IsLookup(m, key, now, window, b)
    ensures a.Some? == b.Some?
    ensures a.Some? ==> m[a.value].lastAlertAt == m[b.value].lastAlertAt
  {
    if a.Some? {
      assert Live(m[a.value], key, now, window);
    }
  }

  /** With at most one live incident, the order of the walk cannot matter. */
  lemma LookupIsDetermined(m: Incidents, key: string, now: Time, window: Time, a: Option<string>, b: Option<string>)
    requires AtMostOneLive(m, key, now, window)
    requires IsLookup(m, key, now, window, a) && IsLookup(m, key, now, window, b)
    ensures a == b
  {
    LookupsTie(m, key, now, window, a, b);
    if a.Some? {
      assert Live(m[a.value], key, now, window) && Live(m[b.value], key, now, window);
    }
  }

  class InMemoryIncidentStore {
    var incidents: Incidents

    ghost predicate Valid()
      reads this
    {
      Indexed(incidents)
    }

    constructor ()
      ensures Valid() && incidents == map[]
    {
      incidents := map[];
    }

    /** An incident of that very identifier, if there is one. */
    method GetByID(id: string) returns (r: Option<Incident>)
      requires Valid()
      ensures r.Some? <==> exists inc :: inc in incidents.Values && inc.id == id
      ensures r.Some? ==> r.value in incidents.Values && r.value.id == id
    {
      if id !in incidents {
        return None;
      }
      r := Some(incidents[id]);
    }

    method Save(inc: Incident)
      requires Valid()
      modifies this
      ensures Valid() && incidents == old(incidents)[inc.id := inc]
    {
      incidents := incidents[inc.id := inc];
    }

    method FindOpenByCorrelationKey(key: string, window: Time, now: Time) returns (r: Option<Incident>)
      requires Valid()
      ensures r.Some? ==> r.value.id in incidents && incidents[r.value.id] == r.value
      ensures IsLookup(incidents, key, now, window, if r.Some? then Some(r.value.id) else None)
      ensures r.Some? ==> r.value.key == key && r.value.state != Resolved && now - r.value.lastAlertAt <= window
      ensures forall inc | inc in incidents.Values && inc.key == key && inc.state != Resolved
                           && now - inc.lastAlertAt <= window ::
                r.Some? && inc.lastAlertAt <= r.value.lastAlertAt
    {
      var candidate: Option<Incident> := None;
      var rest := incidents.Keys;
      while rest != {}
        invariant rest <= incidents.Keys
        invariant candidate.Some? ==>
                    && candidate.value.id in incidents && incidents[candidate.value.id] == candidate.value
                    && Live(candidate.value, key, now, window)
        invariant forall id | id in incidents && id !in rest && Live(incidents[id], key, now, window) ::
                    candidate.Some? && incidents[id].lastAlertAt <= candidate.value.lastAlertAt
        decreases rest
      {
        var id :| id in rest;
        rest := rest - {id};
        var inc := incidents[id];
        if inc.key != key {
          continue;
        }
        if inc.state == Resolved {
          continue;
        }
        if now - inc.lastAlertAt > window {
          continue;
        }
        if candidate.None? || inc.lastAlertAt > candidate.value.lastAlertAt {
          candidate := Some(inc);
        }
      }
      r := candidate;
    }

    /** Every incident once, in no particular order. */
    method List() returns (out: seq<Incident>)
      requires Valid()
      ensures |out| == |incidents|
      ensures forall i | 0 <= i < |out| :: out[i].id in incidents && incidents[out[i].id] == out[i]
      ensures forall i, j | 0 <= i < j < |out| :: out[i].id != out[j].id
      ensures forall id | id in incidents :: incidents[id] in out
    {
      out := [];
      var rest := incidents.Keys;
      while rest != {}
        invariant rest <= incidents.Keys && |out| + |rest| == |incidents.Keys|
        invariant forall i | 0 <= i < |out| ::
                    out[i].id in incidents && out[i].id !in rest && incidents[out[i].id] == out[i]
        invariant forall i, j | 0 <= i < j < |out| :: out[i].id != out[j].id
        invariant forall id | id in incidents && id !in rest :: incidents[id] in out
        decreases rest
      {
        var id :| id in rest;
        rest := rest - {id};
        out := out + [incidents[id]];
      }
    }
  }
}
