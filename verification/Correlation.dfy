/**
 * What the correlator reads off an alert, and the incident it builds from it:
 * the correlation key, the primary service, the severity, and the two ways an
 * incident changes when an alert is processed.
 */
module Correlation {
  import opened Wrappers
  import opened Domain
  import Lexicographic

  /** The first of the labels service, app and deployment that is present and not empty. */
  function PrimaryService(labels: Labels): string {
    if Label(labels, "service") != "" then Label(labels, "service")
    else if Label(labels, "app") != "" then Label(labels, "app")
    else if Label(labels, "deployment") != "" then Label(labels, "deployment")
    else "unknown"
  }

  function SeverityOf(alert: Alert): string {
    if Label(alert.labels, "severity") != "" then Label(alert.labels, "severity") else "unknown"
  }

  /** What a correlation key is meant to identify. */
  datatype Scope = Scope(cluster: string, namespace: string, service: string)

  function ScopeOf(alert: Alert): Scope {
    Scope(Label(alert.labels, "cluster"), Label(alert.labels, "namespace"), PrimaryService(alert.labels))
  }

  function KeyOfScope(s: Scope): string {
    s.cluster + "/" + s.namespace + "/" + s.service
  }

  function KeyOf(alert: Alert): string {
    KeyOfScope(ScopeOf(alert))
  }

  /** The incident opened by an alert that found none. */
  function Opened(id: string, alert: Alert, now: Time, topology: Option<TopologySlice>): Incident {
    Incident(
      id, PrimaryService(alert.labels), Label(alert.labels, "cluster"), Label(alert.labels, "environment"),
      SeverityOf(alert), [alert], KeyOf(alert), 1, Open, now, now, alert.startsAt, now, topology)
  }

  /** The incident after an alert has been appended to it. */
  function Extended(inc: Incident, alert: Alert, now: Time): Incident {
    inc.(alerts := inc.alerts + [alert],
         lastAlertAt := now,
         updatedAt := now,
         severity := Lexicographic.Max(inc.severity, SeverityOf(alert)),
         version := inc.version + 1)
  }

  // ---- The order of severities ----

  /** The three severities that alerts are given, by what they are meant to say. */
  predicate Graded(severity: string) {
    severity == "info" || severity == "warning" || severity == "critical"
  }

  function Urgency(severity: string): nat {
    if severity == "critical" then 2 else if severity == "warning" then 1 else 0
  }

  ghost predicate IsMostUrgent(m: string, ss: seq<string>) {
    m in ss && forall s | s in ss :: Urgency(s) <= Urgency(m)
  }

  lemma SeveritiesInOrder()
    ensures Lexicographic.Less("critical", "info") && Lexicographic.Less("info", "warning")
    ensures Lexicographic.Less("critical", "warning")
  {
    assert "critical"[0] < "info"[0] < "warning"[0];
  }

  /**
   * Severities compare as strings. The greatest string is the most urgent severity if and
   * only if nothing is critical, or everything is.
   */
  lemma GreatestIsMostUrgentIff(ss: seq<string>)
    requires ss != [] && forall s | s in ss :: Graded(s)
    ensures IsMostUrgent(Lexicographic.MaxOf(ss), ss) <==> "critical" !in ss || forall s | s in ss :: s == "critical"
  {
    SeveritiesInOrder();
    Lexicographic.MaxOfIsMaximum(ss);
    var m := Lexicographic.MaxOf(ss);
    assert forall s | s in ss :: !Lexicographic.Less(m, s) && Graded(s);
  }

  // ---- When does a key identify its scope? ----

  predicate SlashFree(s: string) {
    '/' !in s
  }

  /** A slash-free prefix ends where the first '/' stands. */
  lemma SlashFreePrefix(a: string, x: string)
    requires SlashFree(a)
    ensures var l := a + "/" + x;
            l[|a|] == '/' && l[..|a|] == a && l[|a| + 1..] == x && forall i | 0 <= i < |a| :: l[i] != '/'
  {
    var l := a + "/" + x;
    forall i | 0 <= i < |a| ensures l[i] != '/' {
      assert l[i] == a[i];
    }
  }

  /** Reading up to the first '/' recovers a slash-free prefix and what follows it. */
  lemma SplitAtSlash(a: string, b: string, x: string, y: string)
    requires SlashFree(a) && SlashFree(b)
    requires a + "/" + x == b + "/" + y
    ensures a == b && x == y
  {
    SlashFreePrefix(a, x);
    SlashFreePrefix(b, y);
  }

  lemma KeyOfScopeInjective(s: Scope, t: Scope)
    requires SlashFree(s.cluster) && SlashFree(s.namespace)
    requires SlashFree(t.cluster) && SlashFree(t.namespace)
    requires KeyOfScope(s) == KeyOfScope(t)
    ensures s == t
  {
    var restS, restT := s.namespace + "/" + s.service, t.namespace + "/" + t.service;
    assert KeyOfScope(s) == s.cluster + "/" + restS;
    assert KeyOfScope(t) == t.cluster + "/" + restT;
    SplitAtSlash(s.cluster, t.cluster, restS, restT);
    SplitAtSlash(s.namespace, t.namespace, s.service, t.service);
  }

  /** With slash-free cluster and namespace labels, equal keys mean equal scopes. */
  lemma KeyIdentifiesScope(a: Alert, b: Alert)
    requires SlashFree(ScopeOf(a).cluster) && SlashFree(ScopeOf(a).namespace)
    requires SlashFree(ScopeOf(b).cluster) && SlashFree(ScopeOf(b).namespace)
    ensures KeyOf(a) == KeyOf(b) <==> ScopeOf(a) == ScopeOf(b)
  {
    var s, t := ScopeOf(a), ScopeOf(b);
    if KeyOfScope(s) == KeyOfScope(t) {
      KeyOfScopeInjective(s, t);
    }
  }

  /** A service is never empty. */
  lemma ServiceNotEmpty(a: Alert)
    ensures ScopeOf(a).service != ""
  {
  }

  /** An alert with the given scope; any scope with a service can arise. */
  function AlertIn(s: Scope): (a: Alert)
    ensures s.service != "" ==> ScopeOf(a) == s
  {
    Alert("", map["cluster" := s.cluster, "namespace" := s.namespace, "service" := s.service], map[], 0, None)
  }

  ghost predicate KeyIsUnambiguous(a: Alert) {
    forall b: Alert :: KeyOf(b) == KeyOf(a) ==> ScopeOf(b) == ScopeOf(a)
  }

  ghost predicate OnlyScopeWithItsKey(s: Scope) {
    forall t: Scope :: t.service != "" && KeyOfScope(t) == KeyOfScope(s) ==> t == s
  }

  predicate SplitsOneWay(s: Scope) {
    SlashFree(s.cluster) && SlashFree(s.namespace) && (s.service == "" || SlashFree(s.service[..|s.service| - 1]))
  }

  /** A text that holds a '/' is two texts around one. */
  lemma AtASlash(s: string) returns (l: string, r: string)
    requires !SlashFree(s)
    ensures s == l + "/" + r
  {
    var i :| 0 <= i < |s| && s[i] == '/';
    l, r := s[..i], s[i + 1..];
  }

  lemma ElsewhereSplit(s: Scope) returns (t: Scope)
    requires s.service != "" && !SplitsOneWay(s)
    ensures t != s && t.service != "" && KeyOfScope(t) == KeyOfScope(s)
  {
    if !SlashFree(s.cluster) {
      var l, r := AtASlash(s.cluster);
      t := Scope(l, r + "/" + s.namespace, s.service);
      assert |t.cluster| < |s.cluster|;
    } else if !SlashFree(s.namespace) {
      var l, r := AtASlash(s.namespace);
      t := Scope(s.cluster + "/" + l, r, s.service);
      assert |t.namespace| < |s.namespace|;
    } else {
      var n := |s.service| - 1;
      var l, r := AtASlash(s.service[..n]);
      t := Scope(s.cluster + "/" + s.namespace, l, r + s.service[n..]);
      assert s.service == l + "/" + (r + s.service[n..]);
      assert |t.service| < |s.service|;
    }
    assert KeyOfScope(t) == KeyOfScope(s);
  }

  /** Up to its last character, the key of a one-way scope has '/' only at its two separators. */
  lemma SlashesOf(s: Scope, x: nat)
    requires s.service != "" && SplitsOneWay(s)
    requires x < |KeyOfScope(s)| - 1 && x != |s.cluster| && x != |s.cluster| + 1 + |s.namespace|
    ensures KeyOfScope(s)[x] != '/'
  {
    var i, j := |s.cluster|, |s.cluster| + 1 + |s.namespace|;
    if x < i {
      assert KeyOfScope(s)[x] == s.cluster[x];
    } else if x < j {
      assert KeyOfScope(s)[x] == s.namespace[x - i - 1];
    } else {
      assert KeyOfScope(s)[x] == s.service[x - j - 1] == s.service[..|s.service| - 1][x - j - 1];
    }
  }

  lemma AllSlashesOf(s: Scope)
    requires s.service != "" && SplitsOneWay(s)
    ensures forall x {:trigger KeyOfScope(s)[x]} :: 0 <= x < |KeyOfScope(s)| - 1 && KeyOfScope(s)[x] == '/' ==>
              x == |s.cluster| || x == |s.cluster| + 1 + |s.namespace|
  {
    forall x {:trigger KeyOfScope(s)[x]}
      | 0 <= x < |KeyOfScope(s)| - 1 && x != |s.cluster| && x != |s.cluster| + 1 + |s.namespace|
      ensures KeyOfScope(s)[x] != '/'
    {
      SlashesOf(s, x);
    }
  }

  lemma PartsOf(s: Scope)
    ensures var k, i, j := KeyOfScope(s), |s.cluster|, |s.cluster| + 1 + |s.namespace|;
            k[i] == '/' && k[j] == '/' && s.cluster == k[..i] && s.namespace == k[i + 1..j] && s.service == k[j + 1..]
  {
  }

  lemma OnlyOneSplit(s: Scope, t: Scope)
    requires s.service != "" && t.service != "" && KeyOfScope(s) == KeyOfScope(t) && SplitsOneWay(s)
    ensures s == t
  {
    PartsOf(s);
    PartsOf(t);
    var p, q := |t.cluster|, |t.cluster| + 1 + |t.namespace|;
    AllSlashesOf(s);
    assert p == |s.cluster| && q == |s.cluster| + 1 + |s.namespace|;
  }

  lemma OnlyScopeIff(s: Scope)
    requires s.service != ""
    ensures OnlyScopeWithItsKey(s) <==> SplitsOneWay(s)
  {
    if SplitsOneWay(s) {
      forall t: Scope | t.service != "" && KeyOfScope(t) == KeyOfScope(s) ensures t == s {
        OnlyOneSplit(s, t);
      }
    } else {
      var t := ElsewhereSplit(s);
    }
  }

  /**
   * Exactly which alerts have a key that no alert of another scope shares: those whose
   * cluster and namespace hold no '/', and whose service holds none but perhaps as
   * its last character (a service is never empty, so nothing can be split off there).
   */
  lemma KeyIsUnambiguousIff(a: Alert)
    ensures KeyIsUnambiguous(a) <==>
            SlashFree(ScopeOf(a).cluster) && SlashFree(ScopeOf(a).namespace) &&
            SlashFree(ScopeOf(a).service[..|ScopeOf(a).service| - 1])
  {
    var s := ScopeOf(a);
    OnlyScopeIff(s);
    if OnlyScopeWithItsKey(s) {
      forall b: Alert | KeyOf(b) == KeyOf(a) ensures ScopeOf(b) == s {
        ServiceNotEmpty(b);
      }
    } else {
      var t: Scope :| t.service != "" && KeyOfScope(t) == KeyOfScope(s) && t != s;
      assert KeyOf(AlertIn(t)) == KeyOf(a);
    }
  }
}
