/**
 * What an alert's labels say, as relations on the label map alone. They are the reference for
 * the functions that compute the service, the severity and the correlation key.
 */
module LabelReading {
  import opened Wrappers
  import opened Domain
  import opened Correlation

  /** The value of a label; an absent one reads as empty. */
  predicate Reads(labels: Labels, name: string, value: string) {
    if name in labels then value == labels[name] else value == ""
  }

  predicate Present(labels: Labels, name: string) {
    name in labels && labels[name] != ""
  }

  /** The labels that can name the service, the first choice first. */
  const SERVICE_LABELS := ["service", "app", "deployment"]

  /** The value of the first label in the list that is present and not empty; "unknown" if there is none. */
  ghost predicate FirstPresent(labels: Labels, names: seq<string>, value: string) {
    || (exists i :: 0 <= i < |names| && Present(labels, names[i]) && value == labels[names[i]]
                    && forall j | 0 <= j < i :: !Present(labels, names[j]))
    || (value == "unknown" && forall i | 0 <= i < |names| :: !Present(labels, names[i]))
  }

  ghost predicate IsServiceOf(labels: Labels, service: string) {
    FirstPresent(labels, SERVICE_LABELS, service)
  }

  ghost predicate IsSeverityOf(labels: Labels, severity: string) {
    FirstPresent(labels, ["severity"], severity)
  }

  ghost predicate IsKeyOf(labels: Labels, key: string) {
    exists cluster, namespace, service ::
      && Reads(labels, "cluster", cluster) && Reads(labels, "namespace", namespace) && IsServiceOf(labels, service)
      && key == cluster + "/" + namespace + "/" + service
  }

  /** The relation leaves no choice. */
  lemma FirstPresentIsUnique(labels: Labels, names: seq<string>, v: string, w: string)
    requires FirstPresent(labels, names, v) && FirstPresent(labels, names, w)
    ensures v == w
  {
    if i :| 0 <= i < |names| && Present(labels, names[i]) && v == labels[names[i]]
            && forall j | 0 <= j < i :: !Present(labels, names[j]) {
      var k :| 0 <= k < |names| && Present(labels, names[k]) && w == labels[names[k]]
               && forall j | 0 <= j < k :: !Present(labels, names[j]);
      assert i == k;
    }
  }

  /** The recorded service is that of the first label of the list that is present, for every alert. */
  lemma ServiceIsRead(labels: Labels, service: string)
    ensures IsServiceOf(labels, service) <==> service == PrimaryService(labels)
  {
    var names := SERVICE_LABELS;
    assert names[0] == "service" && names[1] == "app" && names[2] == "deployment";
    var s := PrimaryService(labels);
    if Present(labels, names[0]) {
      assert s == labels[names[0]];
    } else if Present(labels, names[1]) {
      assert s == labels[names[1]];
    } else if Present(labels, names[2]) {
      assert s == labels[names[2]];
    }
    assert IsServiceOf(labels, s);
    if IsServiceOf(labels, service) {
      FirstPresentIsUnique(labels, names, s, service);
    }
  }

  lemma SeverityIsRead(alert: Alert, severity: string)
    ensures IsSeverityOf(alert.labels, severity) <==> severity == SeverityOf(alert)
  {
    var names := ["severity"];
    assert names[0] == "severity";
    var s := SeverityOf(alert);
    if Present(alert.labels, names[0]) {
      assert s == alert.labels[names[0]];
    }
    assert IsSeverityOf(alert.labels, s);
    if IsSeverityOf(alert.labels, severity) {
      FirstPresentIsUnique(alert.labels, names, s, severity);
    }
  }

  lemma KeyIsRead(alert: Alert, key: string)
    ensures IsKeyOf(alert.labels, key) <==> key == KeyOf(alert)
  {
    var s := ScopeOf(alert);
    ServiceIsRead(alert.labels, s.service);
    assert Reads(alert.labels, "cluster", s.cluster) && Reads(alert.labels, "namespace", s.namespace);
    assert KeyOf(alert) == s.cluster + "/" + s.namespace + "/" + s.service;
    if IsKeyOf(alert.labels, key) {
      var cluster, namespace, service :|
        && Reads(alert.labels, "cluster", cluster) && Reads(alert.labels, "namespace", namespace)
        && IsServiceOf(alert.labels, service) && key == cluster + "/" + namespace + "/" + service;
      ServiceIsRead(alert.labels, service);
    }
  }

  /** Alerts with the same cluster, namespace and service labels have one key, whatever else they carry. */
  lemma SameServiceLabelSameKey(a: Alert, b: Alert)
    requires Present(a.labels, "service") && Present(b.labels, "service")
    requires a.labels["service"] == b.labels["service"]
    requires exists v :: Reads(a.labels, "cluster", v) && Reads(b.labels, "cluster", v)
    requires exists v :: Reads(a.labels, "namespace", v) && Reads(b.labels, "namespace", v)
    ensures KeyOf(a) == KeyOf(b)
  {
    assert SERVICE_LABELS[0] == "service";
    ServiceIsRead(a.labels, a.labels["service"]);
    ServiceIsRead(b.labels, b.labels["service"]);
  }
}
