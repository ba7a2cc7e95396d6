/**
 * The run of the alert script: every page of active clusters, every cluster on a page,
 * the readiness and duration checks, the tag lookup and the alert, with each cluster's
 * failures kept to that cluster. Time is counted in microseconds, the resolution of the
 * source's `datetime`; `now` is read once per run and passed in.
 */
module Monitor {
  import opened Wrappers
  import opened OwnerTags
  import opened Alert
  import opened Text
  import opened EmailPattern

  const ThresholdHours: int := 3
  const MicrosPerHour: int := 3_600_000_000

  /** `timedelta(hours=threshold_hours)` in microseconds. */
  const Threshold: int := ThresholdHours * MicrosPerHour

  /** A cluster as listed: id, name and the optional `ReadyDateTime`. */
  datatype Cluster = Cluster(id: string, name: string, ready: Option<int>)

  /** The answer of `describe_cluster`: the cluster's `Tags` entry (possibly absent), or an error. */
  datatype DescribeReply = Described(tags: Option<seq<Tag>>) | DescribeError

  /** What happened to one cluster in a run. */
  datatype Outcome =
    | Skipped(id: string)                       // no ReadyDateTime
    | NotLongRunning(id: string)                // ready for less than the threshold
    | DescribeFailed(id: string)                // the describe call or reading its tags raised
    | Notified(id: string, email: Email)        // the alert was accepted by the mail service
    | NotifyFailed(id: string, email: Email)    // the alert was attempted and rejected

  /** An alert was attempted for the cluster. */
  predicate Emailed(o: Outcome) {
    o.Notified? || o.NotifyFailed?
  }

  /** The duration test of the script: ready, and ready for at least `threshold`. */
  predicate IsLongRunning(ready: Option<int>, now: int, threshold: int)
    ensures ready.None? ==> !IsLongRunning(ready, now, threshold)
    ensures ready == Some(now - threshold) ==> IsLongRunning(ready, now, threshold)
    ensures ready.Some? && now - ready.value < threshold ==> !IsLongRunning(ready, now, threshold)
  {
    ready.Some? && now - ready.value >= threshold
  }

  /** `response['Cluster'].get('Tags', [])`. */
  function TagsOrEmpty(tags: Option<seq<Tag>>): (r: seq<Tag>)
    ensures tags.None? ==> r == []
    ensures tags.Some? ==> r == tags.value
  {
    if tags.Some? then tags.value else []
  }

  /** `send_email`: build the alert and hand it to the mail service; a rejection is recorded, not raised. */
  function SendEmail(id: string, name: string, duration: int, recipients: seq<string>,
                     deliver: Email -> bool): (o: Outcome)
    ensures Emailed(o) && o.id == id && o.email == AlertEmail(id, name, duration, recipients)
    ensures o.Notified? <==> deliver(o.email)
  {
    var e := AlertEmail(id, name, duration, recipients);
    if deliver(e) then Notified(id, e) else NotifyFailed(id, e)
  }

  /**
   * The outcome for one cluster, given the run's `now`, the two services' answers and the
   * test applied to owner values: `IsEmailAddress` is the script's test (line 86),
   * `StrippedIsEmailAddress` the corrected one.
   */
  function ProcessCluster(c: Cluster, now: int, describe: string -> DescribeReply,
                          deliver: Email -> bool, accept: string -> bool): (o: Outcome)
    ensures o.id == c.id
  {
    if c.ready.None? then Skipped(c.id)
    else
      var duration := now - c.ready.value;
      if duration < Threshold then NotLongRunning(c.id)
      else
        match describe(c.id)
        case DescribeError => DescribeFailed(c.id)
        case Described(tags) =>
          match Scan(TagsOrEmpty(tags), accept)
          case MalformedTag => DescribeFailed(c.id)
          case Recipients(r) => SendEmail(c.id, c.name, duration, r, deliver)
  }

  /** The body of the script's inner loop for one cluster. */
  method HandleCluster(c: Cluster, now: int, describe: string -> DescribeReply,
                       deliver: Email -> bool, accept: string -> bool) returns (o: Outcome)
    ensures o == ProcessCluster(c, now, describe, deliver, accept)
  {
    if c.ready.None? {
      return Skipped(c.id);
    }
    var duration := now - c.ready.value;
    if duration >= Threshold {
      var reply := describe(c.id);
      if reply.DescribeError? {
        return DescribeFailed(c.id);
      }
      var scan := ScanTags(TagsOrEmpty(reply.tags), accept);
      if scan.MalformedTag? {
        return DescribeFailed(c.id);
      }
      o := SendEmail(c.id, c.name, duration, scan.addresses, deliver);
    } else {
      o := NotLongRunning(c.id);
    }
  }

  /** The clusters of all pages, in listing order: every listed cluster, and nothing else. */
  function Flatten(pages: seq<seq<Cluster>>): (r: seq<Cluster>)
    ensures forall p, k :: 0 <= p < |pages| && 0 <= k < |pages[p]| ==> pages[p][k] in r
    ensures forall c :: c in r ==> exists p :: 0 <= p < |pages| && c in pages[p]
  {
    if pages == [] then []
    else
      var init := pages[..|pages| - 1];
      assert forall p :: 0 <= p < |init| ==> init[p] == pages[p];
      Flatten(init) + pages[|pages| - 1]
  }

  /**
   * The whole run. Every listed cluster gets exactly one outcome, in listing order, and that
   * outcome depends only on the cluster itself, the one `now` of the run and the services'
   * answers: a failure inside the handling of one cluster (the describe call, its tags, the
   * alert) never stops or changes the handling of the others.
   * The script's run is `Run(pages, now, describe, deliver, IsEmailAddress)`.
   */
  method Run(pages: seq<seq<Cluster>>, now: int, describe: string -> DescribeReply,
             deliver: Email -> bool, accept: string -> bool) returns (log: seq<Outcome>)
    ensures |log| == |Flatten(pages)|
    ensures forall i :: 0 <= i < |log| ==> log[i] == ProcessCluster(Flatten(pages)[i], now, describe, deliver, accept)
  {
    log := [];
    var p := 0;
    while p < |pages|
      invariant 0 <= p <= |pages|
      invariant |log| == |Flatten(pages[..p])|
      invariant forall i :: 0 <= i < |log| ==>
        log[i] == ProcessCluster(Flatten(pages[..p])[i], now, describe, deliver, accept)
    {
      var page := pages[p];
      ghost var before := Flatten(pages[..p]);
      var j := 0;
      while j < |page|
        invariant 0 <= j <= |page|
        invariant |log| == |before| + j
        invariant forall i :: 0 <= i < |log| ==>
          log[i] == ProcessCluster((before + page[..j])[i], now, describe, deliver, accept)
      {
        var o := HandleCluster(page[j], now, describe, deliver, accept);
        assert (before + page[..j + 1]) == (before + page[..j]) + [page[j]];
        log := log + [o];
        j := j + 1;
      }
      assert pages[..p + 1][..p] == pages[..p];
      assert page[..j] == page;
      p := p + 1;
    }
    assert pages[..p] == pages;
  }

  // ---------------------------------------------------------------------------
  // Properties of one cluster's handling, for either owner test.

  /** A cluster without `ReadyDateTime` is neither described nor emailed. */
  lemma MissingReadyIsSkipped(c: Cluster, now: int, describe: string -> DescribeReply, deliver: Email -> bool,
                              accept: string -> bool)
    requires c.ready.None?
    ensures ProcessCluster(c, now, describe, deliver, accept) == Skipped(c.id)
  {
  }

  /**
   * A cluster is described exactly when it is long-running (the boundary counts), and emailed
   * exactly when, in addition, the describe call succeeds and its tags can be read.
   */
  lemma EmailedExactlyWhenLongRunning(c: Cluster, now: int, describe: string -> DescribeReply,
                                      deliver: Email -> bool, accept: string -> bool)
    ensures var o := ProcessCluster(c, now, describe, deliver, accept);
      && (o.Skipped? <==> c.ready.None?)
      && (o.NotLongRunning? <==> c.ready.Some? && !IsLongRunning(c.ready, now, Threshold))
      && (Emailed(o) <==> IsLongRunning(c.ready, now, Threshold) && describe(c.id).Described?
                          && Scan(TagsOrEmpty(describe(c.id).tags), accept).Recipients?)
  {
  }

  /** Ready for exactly the threshold is long-running; a microsecond less is not. */
  lemma ThresholdIsInclusive(c: Cluster, now: int, describe: string -> DescribeReply, deliver: Email -> bool,
                             accept: string -> bool)
    ensures c.ready == Some(now - Threshold) ==>
      ProcessCluster(c, now, describe, deliver, accept) !in {Skipped(c.id), NotLongRunning(c.id)}
    ensures c.ready == Some(now - Threshold + 1) ==>
      ProcessCluster(c, now, describe, deliver, accept) == NotLongRunning(c.id)
  {
  }

  /**
   * Every attempted alert goes to the resolved owner (at most one address: the stripped value
   * of the first owner tag with a non-empty value, a value that passed the test) with the
   * fallback in copy, or to the fallback alone; its subject names the cluster, and its
   * duration is the time since the cluster became ready.
   */
  lemma AlertAddressesOwnerAndFallback(c: Cluster, now: int, describe: string -> DescribeReply,
                                       deliver: Email -> bool, accept: string -> bool)
    requires Emailed(ProcessCluster(c, now, describe, deliver, accept))
    ensures var e := ProcessCluster(c, now, describe, deliver, accept).email;
      var tags := TagsOrEmpty(describe(c.id).tags);
      var r := Scan(tags, accept).addresses;
      && Fallback in Addresses(e.destination)
      && Addresses(e.destination) == r + [Fallback]
      && |r| <= 1
      && (|r| == 1 ==> exists i :: IsFirstStop(tags, i) && tags[i].value.Some?
                                   && accept(tags[i].value.value) && r == [Strip(tags[i].value.value)])
      && e.subject == Subject(c.name, c.id)
      && e.duration == now - c.ready.value
  {
    ScanYieldsFirstOwnerValue(TagsOrEmpty(describe(c.id).tags), accept);
  }

  /** With the corrected test, every attempted alert addresses only well-formed owner addresses. */
  lemma CorrectedAlertsAreWellFormed(c: Cluster, now: int, describe: string -> DescribeReply,
                                     deliver: Email -> bool)
    requires Emailed(ProcessCluster(c, now, describe, deliver, StrippedIsEmailAddress))
    ensures var e := ProcessCluster(c, now, describe, deliver, StrippedIsEmailAddress).email;
      forall a :: a in Addresses(e.destination) && a != Fallback ==> IsEmailAddress(a)
  {
    var r := Resolve(TagsOrEmpty(describe(c.id).tags)).addresses;
    var e := ProcessCluster(c, now, describe, deliver, StrippedIsEmailAddress).email;
    assert Addresses(e.destination) == r + [Fallback];
  }

  /**
   * As written, the script mails a padded owner value's stripped form: an owner tag
   * " @domain.com" makes the alert go to "@domain.com", with the fallback in copy.
   */
  lemma AsWrittenAlertsMalformedOwner(c: Cluster, now: int, describe: string -> DescribeReply,
                                      deliver: Email -> bool)
    requires c.ready.Some? && now - c.ready.value >= Threshold
    requires describe(c.id) == Described(Some([Tag(Some("owner"), Some(PaddedAddress))]))
    ensures var o := ProcessCluster(c, now, describe, deliver, IsEmailAddress);
      Emailed(o) && o.email.destination == Destination([BareDomain], Some([Fallback]))
      && !IsEmailAddress(BareDomain)
  {
    AsWrittenStoresMalformedAddress();
  }

  /** The script's run and the corrected one agree on every cluster whose tag values carry no padding. */
  lemma CorrectionAgreesOnUnpaddedClusters(c: Cluster, now: int, describe: string -> DescribeReply,
                                           deliver: Email -> bool)
    requires describe(c.id).Described? ==>
      var tags := TagsOrEmpty(describe(c.id).tags);
      forall j :: 0 <= j < |tags| && tags[j].value.Some? ==> Strip(tags[j].value.value) == tags[j].value.value
    ensures ProcessCluster(c, now, describe, deliver, IsEmailAddress)
            == ProcessCluster(c, now, describe, deliver, StrippedIsEmailAddress)
  {
    if describe(c.id).Described? {
      CorrectionAgreesOnUnpaddedValues(TagsOrEmpty(describe(c.id).tags));
    }
  }

  // ---------------------------------------------------------------------------
  // Properties of a run.

  /** Alerts attempted for cluster `id` in a run's outcomes. */
  function AttemptsFor(log: seq<Outcome>, id: string): nat {
    if log == [] then 0
    else (if log[0].id == id && Emailed(log[0]) then 1 else 0) + AttemptsFor(log[1..], id)
  }

  predicate DistinctIds(cs: seq<Cluster>) {
    forall i, j :: 0 <= i < j < |cs| ==> cs[i].id != cs[j].id
  }

  /**
   * With distinct cluster ids, a run attempts at most one alert per cluster, and exactly one
   * for each cluster whose handling reaches the mail service.
   */
  lemma {:induction false} AtMostOneAlertPerCluster(cs: seq<Cluster>, log: seq<Outcome>, now: int,
                                                    describe: string -> DescribeReply, deliver: Email -> bool,
                                                    accept: string -> bool, k: int)
    requires DistinctIds(cs) && |log| == |cs|
    requires forall i :: 0 <= i < |log| ==> log[i] == ProcessCluster(cs[i], now, describe, deliver, accept)
    requires 0 <= k < |cs|
    ensures AttemptsFor(log, cs[k].id) == if Emailed(log[k]) then 1 else 0
  {
    if k == 0 {
      NoAttemptsForAbsentId(cs[1..], log[1..], now, describe, deliver, accept, cs[0].id);
    } else {
      AtMostOneAlertPerCluster(cs[1..], log[1..], now, describe, deliver, accept, k - 1);
    }
  }

  /** A run attempts no alert for an id that none of its clusters carries. */
  lemma {:induction false} NoAttemptsForAbsentId(cs: seq<Cluster>, log: seq<Outcome>, now: int,
                                                 describe: string -> DescribeReply, deliver: Email -> bool,
                                                 accept: string -> bool, id: string)
    requires |log| == |cs|
    requires forall i :: 0 <= i < |log| ==> log[i] == ProcessCluster(cs[i], now, describe, deliver, accept)
    requires forall i :: 0 <= i < |cs| ==> cs[i].id != id
    ensures AttemptsFor(log, id) == 0
  {
    if log != [] {
      NoAttemptsForAbsentId(cs[1..], log[1..], now, describe, deliver, accept, id);
    }
  }

  /**
   * A cluster ready for `d`, at least the threshold, whose tags read without error is handed
   * to `send_email` with the scan's recipients and `d` as its duration.
   */
  lemma ReadableClusterIsMailed(c: Cluster, now: int, describe: string -> DescribeReply, deliver: Email -> bool,
                                accept: string -> bool, d: int, tags: seq<Tag>, r: seq<string>)
    requires c.ready == Some(now - d) && d >= Threshold
    requires describe(c.id) == Described(Some(tags)) && Scan(tags, accept) == Recipients(r)
    ensures ProcessCluster(c, now, describe, deliver, accept) == SendEmail(c.id, c.name, d, r, deliver)
  {
  }

  /**
   * A cluster ready for `d` (at least the threshold) whose one tag is an owner tag holding a
   * well-formed address without surrounding whitespace is mailed to that owner, by the script
   * and by the corrected run alike, when the mail service accepts the alert.
   */
  lemma OwnedClusterIsMailed(c: Cluster, now: int, describe: string -> DescribeReply, deliver: Email -> bool,
                             d: int, k: string, owner: string)
    requires c.ready == Some(now - d) && d >= Threshold
    requires describe(c.id) == Described(Some([Tag(Some(k), Some(owner))]))
    requires IsOwnerKey(k) && owner != "" && Strip(owner) == owner && IsEmailAddress(owner)
    requires deliver(AlertEmail(c.id, c.name, d, [owner]))
    ensures ProcessCluster(c, now, describe, deliver, IsEmailAddress)
            == Notified(c.id, AlertEmail(c.id, c.name, d, [owner]))
    ensures ProcessCluster(c, now, describe, deliver, StrippedIsEmailAddress)
            == Notified(c.id, AlertEmail(c.id, c.name, d, [owner]))
  {
    var tags := [Tag(Some(k), Some(owner))];
    LoneOwnerTagResolves(k, owner);
    ReadableClusterIsMailed(c, now, describe, deliver, IsEmailAddress, d, tags, [owner]);
    ReadableClusterIsMailed(c, now, describe, deliver, StrippedIsEmailAddress, d, tags, [owner]);
  }

  /**
   * A cluster ready for two hours is left alone; one ready for five hours without tags is
   * mailed to the fallback alone; one whose describe call fails is recorded as such.
   */
  lemma UnownedClusterScenarios(c: Cluster, now: int, describe: string -> DescribeReply, deliver: Email -> bool,
                                accept: string -> bool)
    ensures c.ready == Some(now - 2 * MicrosPerHour) ==>
      ProcessCluster(c, now, describe, deliver, accept) == NotLongRunning(c.id)
    ensures c.ready == Some(now - 5 * MicrosPerHour) && describe(c.id) == Described(Some([])) ==>
      var e := AlertEmail(c.id, c.name, 5 * MicrosPerHour, []);
      ProcessCluster(c, now, describe, deliver, accept) == (if deliver(e) then Notified(c.id, e) else NotifyFailed(c.id, e))
      && e.destination == Destination([Fallback], None)
    ensures c.ready == Some(now - 5 * MicrosPerHour) && describe(c.id) == DescribeError ==>
      ProcessCluster(c, now, describe, deliver, accept) == DescribeFailed(c.id)
  {
  }
}
