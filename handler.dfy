/**
 * The daily job: back up every tagged, live instance of a region as an image
 * that carries its own expiry date, then deregister the images whose date has
 * come and delete the snapshots behind them; region after region.
 */
module Handler {
  import opened Wrappers
  import opened Text
  import opened Decimal
  import opened Calendar
  import opened DateFormat
  import opened Tags
  import opened Ec2
  import opened Settings

  /** Tag keys that mark an instance for backup. */
  const TagsToFind: seq<string> := ["backup", "Backup"]
  const TerminatedState := "terminated"
  const NameKey := "Name"
  const RetentionKey := "Retention"
  const DeleteAfterKey := "DeleteAfter"
  const OriginalInstanceIdKey := "OriginalInstanceID"
  const MarkerValue := "true"
  /** Only images owned by the calling account are considered for deletion. */
  const ImageOwners: seq<string> := ["self"]

  // ---------------------------------------------------------------------
  // Choosing the instances to back up
  // ---------------------------------------------------------------------

  /** The instances of all reservations, reservation by reservation, each in its own order. */
  function Flatten(rs: seq<Reservation>): seq<Instance>
  {
    if rs == [] then [] else Flatten(rs[..|rs| - 1]) + rs[|rs| - 1].instances
  }

  predicate IsLive(x: Instance)
  {
    x.stateName != TerminatedState
  }

  /** The instances that are not terminated, in their original order. */
  function Live(xs: seq<Instance>): seq<Instance>
  {
    if xs == [] then []
    else Live(xs[..|xs| - 1]) + (if IsLive(xs[|xs| - 1]) then [xs[|xs| - 1]] else [])
  }

  lemma {:induction false} LiveAppend(a: seq<Instance>, b: seq<Instance>)
    ensures Live(a + b) == Live(a) + Live(b)
    decreases |b|
  {
    if b != [] {
      var b' := b[..|b| - 1];
      assert (a + b)[..|a + b| - 1] == a + b';
      LiveAppend(a, b');
    } else {
      assert a + b == a;
    }
  }

  lemma {:induction false} LiveMembers(xs: seq<Instance>)
    ensures forall x :: x in Live(xs) <==> x in xs && IsLive(x)
  {
    if xs != [] {
      LiveMembers(xs[..|xs| - 1]);
      assert xs == xs[..|xs| - 1] + [xs[|xs| - 1]];
    }
  }

  lemma {:induction false} FlattenMembers(rs: seq<Reservation>)
    ensures forall x :: x in Flatten(rs) <==> exists r :: r in rs && x in r.instances
  {
    if rs != [] {
      var front := rs[..|rs| - 1];
      FlattenMembers(front);
      assert rs == front + [rs[|rs| - 1]];
      forall x ensures x in Flatten(rs) <==> exists r :: r in rs && x in r.instances {
        if x in Flatten(front) {
          var r :| r in front && x in r.instances;
          assert r in rs;
        }
      }
    }
  }

  /** An instance is backed up exactly when some reservation holds it and it is not terminated. */
  lemma SelectionMembers(rs: seq<Reservation>)
    ensures forall x :: x in Live(Flatten(rs)) <==> IsLive(x) && exists r :: r in rs && x in r.instances
  {
    LiveMembers(Flatten(rs));
    FlattenMembers(rs);
  }

  /** The nested loop that collects the instances that are not terminated. */
  method SelectInstances(reservations: seq<Reservation>) returns (instances: seq<Instance>)
    ensures instances == Live(Flatten(reservations))
  {
    instances := [];
    for i := 0 to |reservations|
      invariant instances == Live(Flatten(reservations[..i]))
    {
      var group := reservations[i].instances;
      for j := 0 to |group|
        invariant instances == Live(Flatten(reservations[..i])) + Live(group[..j])
      {
        if group[j].stateName != TerminatedState {
          instances := instances + [group[j]];
        }
        assert group[..j + 1][..j] == group[..j];
      }
      assert group[..|group|] == group;
      assert reservations[..i + 1][..i] == reservations[..i];
      LiveAppend(Flatten(reservations[..i]), group);
    }
    assert reservations[..|reservations|] == reservations;
  }

  // ---------------------------------------------------------------------
  // What is read from an instance's tags
  // ---------------------------------------------------------------------

  /** The value of the first `Name` tag, or the instance id when there is none. */
  function InstanceName(x: Instance): (name: string)
    ensures (forall i :: 0 <= i < |x.tags| ==> x.tags[i].key != NameKey) ==> name == x.instanceId
    ensures forall i :: IsFirstWithKey(x.tags, NameKey, i) ==> name == x.tags[i].value
  {
    match FirstValue(x.tags, NameKey)
    case Some(v) => v
    case None => x.instanceId
  }

  /** Every value converted with `int()`, in order; None when any one of them does not convert. */
  function ParseAll(vs: seq<string>): (r: Option<seq<int>>)
    ensures r.None? <==> exists k :: 0 <= k < |vs| && ParseInt(vs[k]).None?
    ensures r.Some? ==> |r.value| == |vs| && forall k :: 0 <= k < |vs| ==> ParseInt(vs[k]) == Some(r.value[k])
  {
    if vs == [] then Some([])
    else
      match (ParseInt(vs[0]), ParseAll(vs[1..]))
      case (Some(n), Some(ns)) =>
        assert forall k :: 1 <= k < |vs| ==> vs[k] == vs[1..][k - 1];
        Some([n] + ns)
      case (None, _) => None
      case (Some(_), None) =>
        var k :| 0 <= k < |vs[1..]| && ParseInt(vs[1..][k]).None?;
        assert vs[k + 1] == vs[1..][k];
        None
  }

  /**
   * Days to keep the backup: the first `Retention` tag's value as an integer, or the
   * configured default when no tag has that key or when ANY `Retention` value fails to convert
   * (the whole comprehension raises, not just the first element).
   */
  function RetentionDays(tags: seq<Tag>, default: int): (days: int)
    ensures (forall i :: 0 <= i < |tags| ==> tags[i].key != RetentionKey) ==> days == default
    ensures (exists i :: 0 <= i < |tags| && tags[i].key == RetentionKey && ParseInt(tags[i].value).None?) ==> days == default
    ensures (forall j :: 0 <= j < |tags| && tags[j].key == RetentionKey ==> ParseInt(tags[j].value).Some?) ==>
              forall i :: IsFirstWithKey(tags, RetentionKey, i) ==> days == ParseInt(tags[i].value).value
  {
    var vs := ValuesOf(tags, RetentionKey);
    ValuesOfFirst(tags, RetentionKey);
    ParseAllValues(tags, RetentionKey);
    match ParseAll(vs)
    case None => default
    case Some(ns) => if ns == [] then default else ns[0]
  }

  /** Converting the matching values fails exactly when one of the matching tags does not hold an integer. */
  lemma ParseAllValues(tags: seq<Tag>, key: string)
    ensures ParseAll(ValuesOf(tags, key)).None? <==>
      exists i :: 0 <= i < |tags| && tags[i].key == key && ParseInt(tags[i].value).None?
  {
    var vs := ValuesOf(tags, key);
    ValuesOfMembers(tags, key);
    if ParseAll(vs).None? {
      var k :| 0 <= k < |vs| && ParseInt(vs[k]).None?;
      assert vs[k] in vs;
    } else {
      forall i | 0 <= i < |tags| && tags[i].key == key ensures ParseInt(tags[i].value).Some? {
        assert tags[i].value in vs;
        var k :| 0 <= k < |vs| && vs[k] == tags[i].value;
      }
    }
  }

  /** None of the keys the job writes itself lies in the reserved or the rename namespace. */
  lemma LifecycleKeysPlain()
    ensures !StartsWith(DeleteAfterKey, ReservedPrefix) && !StartsWith(DeleteAfterKey, RenamePrefix)
    ensures !StartsWith(OriginalInstanceIdKey, ReservedPrefix) && !StartsWith(OriginalInstanceIdKey, RenamePrefix)
  {
    assert DeleteAfterKey[0] == 'D' && OriginalInstanceIdKey[0] == 'O';
    assert ReservedPrefix[0] == 'a' && RenamePrefix[0] == 'i';
  }

  // ---------------------------------------------------------------------
  // What the created image is called and tagged with
  // ---------------------------------------------------------------------

  /** `stamp` is the creation time as `%Y-%m-%d-%H-%M-%S`. */
  function ImageName(name: string, stamp: string): string
  {
    name + "-backup-" + stamp
  }

  function ImageDescription(name: string, instanceId: string): string
  {
    "Automatic Daily Backup of " + name + " from " + instanceId
  }

  /**
   * `(date.today() + timedelta(days)).strftime('%m-%d-%Y')`, or None when the sum
   * leaves the calendar and the addition raises OverflowError. The text read back
   * with `%m-%d-%Y` is exactly the date `days` days after today.
   */
  function DeleteAfterValue(today: Date, days: int): (r: Option<string>)
    requires Valid(today)
    ensures r.Some? <==> 1 <= Ordinal(today) + days <= MaxOrdinal
    ensures r.Some? ==> Parse(r.value).Some? && Ordinal(Parse(r.value).value) == Ordinal(today) + days
  {
    AddDaysOrdinal(today, days);
    match AddDays(today, days)
    case None => None
    case Some(d) => ParseFormat(d); Some(Format(d))
  }

  /** The three tags appended to the instance's own before they are copied to the image. */
  function LifecycleTags(instanceId: string, deleteAfter: string, markerKey: string): seq<Tag>
  {
    [Tag(DeleteAfterKey, deleteAfter), Tag(OriginalInstanceIdKey, instanceId), Tag(markerKey, MarkerValue)]
  }

  /** The tag list sent for a new image: the instance's tags, then the lifecycle tags, all sanitized. */
  function ImageTags(x: Instance, deleteAfter: string, markerKey: string): seq<Tag>
  {
    Sanitized(x.tags + LifecycleTags(x.instanceId, deleteAfter, markerKey))
  }

  /**
   * The tags sent for the image: the instance's tags in order (reserved keys renamed) followed
   * by the lifecycle tags; no key is left in the reserved namespace.
   */
  lemma ImageTagsShape(x: Instance, deleteAfter: string, markerKey: string)
    ensures var tags := ImageTags(x, deleteAfter, markerKey);
      && |tags| == |x.tags| + 3
      && tags[..|x.tags|] == Sanitized(x.tags)
      && tags[|x.tags|] == Tag(DeleteAfterKey, deleteAfter)
      && tags[|x.tags| + 1] == Tag(OriginalInstanceIdKey, x.instanceId)
      && tags[|x.tags| + 2] == SanitizeTag(Tag(markerKey, MarkerValue))
      && (forall i :: 0 <= i < |tags| ==> !StartsWith(tags[i].key, ReservedPrefix))
  {
    var tags := ImageTags(x, deleteAfter, markerKey);
    SanitizedAppend(x.tags, LifecycleTags(x.instanceId, deleteAfter, markerKey));
    assert tags[..|x.tags|] == Sanitized(x.tags);
    LifecycleKeysPlain();
  }

  /** The first DeleteAfter in the tags sent: the instance's own when it has one, else the computed date. */
  lemma ImageDeleteAfter(x: Instance, deleteAfter: string, markerKey: string)
    ensures FirstValue(ImageTags(x, deleteAfter, markerKey), DeleteAfterKey) ==
      if FirstValue(x.tags, DeleteAfterKey).Some? then FirstValue(x.tags, DeleteAfterKey) else Some(deleteAfter)
  {
    var lifecycle := LifecycleTags(x.instanceId, deleteAfter, markerKey);
    LifecycleKeysPlain();
    FirstValueSanitized(x.tags + lifecycle, DeleteAfterKey);
    FirstValueAppend(x.tags, lifecycle, DeleteAfterKey);
    assert IsFirstWithKey(lifecycle, DeleteAfterKey, 0);
  }

  /** The first OriginalInstanceID in the tags sent: the instance's own when it has one, else its id. */
  lemma ImageOrigin(x: Instance, deleteAfter: string, markerKey: string)
    ensures FirstValue(ImageTags(x, deleteAfter, markerKey), OriginalInstanceIdKey) ==
      if FirstValue(x.tags, OriginalInstanceIdKey).Some? then FirstValue(x.tags, OriginalInstanceIdKey) else Some(x.instanceId)
  {
    var lifecycle := LifecycleTags(x.instanceId, deleteAfter, markerKey);
    LifecycleKeysPlain();
    FirstValueSanitized(x.tags + lifecycle, OriginalInstanceIdKey);
    FirstValueAppend(x.tags, lifecycle, OriginalInstanceIdKey);
    assert lifecycle[0].key[0] != OriginalInstanceIdKey[0];
    assert IsFirstWithKey(lifecycle, OriginalInstanceIdKey, 1);
  }

  /** The loop that copies the tags, renaming each key in the reserved namespace. */
  method SanitizeTags(tags: seq<Tag>) returns (finalTags: seq<Tag>)
    ensures finalTags == Sanitized(tags)
  {
    finalTags := [];
    for index := 0 to |tags|
      invariant finalTags == Sanitized(tags[..index])
    {
      var item := tags[index];
      if StartsWith(item.key, ReservedPrefix) {
        finalTags := finalTags + [Tag(RenamePrefix + item.key, item.value)];
      } else {
        finalTags := finalTags + [item];
      }
      assert tags[..index + 1] == tags[..index] + [item];
      SanitizedAppend(tags[..index], [item]);
    }
    assert tags[..|tags|] == tags;
  }

  // ---------------------------------------------------------------------
  // Runs: the requests a pass makes, and whether it ends normally
  // ---------------------------------------------------------------------

  /** An exception that nothing catches: it ends the whole invocation. */
  datatype Fault =
    | DescribeFailed(region: string)
    | MalformedDeleteAfter(imageId: string, deleteAfter: string)
    | MissingSnapshotId(imageId: string)

  datatype Status = Completed | Aborted(fault: Fault)

  /** The requests made, in order, and how the part ended. */
  datatype Run = Run(requests: seq<Request>, status: Status)

  const Nothing := Run([], Completed)

  /** One part after another: the second takes place only when the first completed. */
  function Then(first: Run, second: Run): Run
  {
    if first.status.Aborted? then first else Run(first.requests + second.requests, second.status)
  }

  /** No request asks EC2 to change anything. */
  predicate ReadOnly(requests: seq<Request>)
  {
    forall k :: 0 <= k < |requests| ==> !requests[k].call.Changes()
  }

  /** Every request goes to the given region's client. */
  predicate InRegion(requests: seq<Request>, region: string)
  {
    forall k :: 0 <= k < |requests| ==> requests[k].region == region
  }

  // ---------------------------------------------------------------------
  // The backup pass
  // ---------------------------------------------------------------------

  function CreateImageRequest(region: string, stamp: string, x: Instance): Request
  {
    var name := InstanceName(x);
    Request(region, Call.CreateImage(x.instanceId, ImageName(name, stamp), ImageDescription(name, x.instanceId), true))
  }

  /**
   * The requests made for one instance. An exception from creating the image, from
   * computing the expiry date or from tagging is caught and ends only this instance's turn.
   */
  function BackupRequests(cfg: Config, region: string, today: Date, stamp: string, outcome: Request -> Outcome, x: Instance): seq<Request>
    requires Valid(today)
  {
    if cfg.dryRun then []
    else
      var create := CreateImageRequest(region, stamp, x);
      match outcome(create)
      case Raised => [create]
      case Returned(imageId) =>
        match DeleteAfterValue(today, RetentionDays(x.tags, cfg.defaultRetention))
        case None => [create]
        case Some(deleteAfter) =>
          [create, Request(region, Call.CreateTags([imageId], ImageTags(x, deleteAfter, cfg.markerKey)))]
  }

  /** The requests made for the instances, one after another. */
  function InstancesRequests(cfg: Config, region: string, today: Date, stamp: string, outcome: Request -> Outcome, xs: seq<Instance>): seq<Request>
    requires Valid(today)
  {
    if xs == [] then []
    else InstancesRequests(cfg, region, today, stamp, outcome, xs[..|xs| - 1]) + BackupRequests(cfg, region, today, stamp, outcome, xs[|xs| - 1])
  }

  /** The whole backup pass over a region, given what describing its instances answers. */
  function BackupRun(cfg: Config, region: string, today: Date, stamp: string,
                     reservations: Result<seq<Reservation>, DescribeError>, outcome: Request -> Outcome): Run
    requires Valid(today)
  {
    var describe := Request(region, Call.DescribeInstances(TagsToFind));
    match reservations
    case Failure(OptInRequired) => Run([describe], Completed)
    case Failure(OtherError) => Run([describe], Aborted(DescribeFailed(region)))
    case Success(rs) => Run([describe] + InstancesRequests(cfg, region, today, stamp, outcome, Live(Flatten(rs))), Completed)
  }

  /**
   * Back up every live instance carrying a backup tag. `today` is the current date and
   * `stamp` the current time as text.
   */
  method BackupTaggedInstancesInRegion(account: Account, cfg: Config, region: string, today: Date, stamp: string)
    returns (status: Status)
    requires Valid(today)
    modifies account
    ensures var run := BackupRun(cfg, region, today, stamp, ReservationsIn(account.answers, region), account.answers.outcome);
      account.log == old(account.log) + run.requests && status == run.status
  {
    var described := account.DescribeInstances(region, TagsToFind);
    if described.Failure? {
      if described.error == OptInRequired {
        return Completed;
      }
      return Aborted(DescribeFailed(region));
    }
    ghost var middle := account.log;
    var instances := SelectInstances(described.value);
    BackupInstances(account, cfg, region, today, stamp, instances);
    BackupRunListed(cfg, region, today, stamp, described.value, account.answers.outcome, old(account.log), middle, account.log);
    return Completed;
  }

  /** The loop over the selected instances. */
  method BackupInstances(account: Account, cfg: Config, region: string, today: Date, stamp: string, instances: seq<Instance>)
    requires Valid(today)
    modifies account
    ensures account.log == old(account.log) + InstancesRequests(cfg, region, today, stamp, account.answers.outcome, instances)
  {
    for i := 0 to |instances|
      invariant account.log == old(account.log) + InstancesRequests(cfg, region, today, stamp, account.answers.outcome, instances[..i])
    {
      ghost var before := account.log;
      BackupInstance(account, cfg, region, today, stamp, instances[i]);
      InstancesRequestsStep(cfg, region, today, stamp, account.answers.outcome, instances, i, old(account.log), before, account.log);
    }
    assert instances[..|instances|] == instances;
  }

  lemma BackupRunListed(cfg: Config, region: string, today: Date, stamp: string, rs: seq<Reservation>, outcome: Request -> Outcome,
                        log0: seq<Request>, middle: seq<Request>, after: seq<Request>)
    requires Valid(today)
    requires middle == log0 + [Request(region, Call.DescribeInstances(TagsToFind))]
    requires after == middle + InstancesRequests(cfg, region, today, stamp, outcome, Live(Flatten(rs)))
    ensures after == log0 + BackupRun(cfg, region, today, stamp, Success(rs), outcome).requests
    ensures BackupRun(cfg, region, today, stamp, Success(rs), outcome).status == Completed
  {
    var listed := InstancesRequests(cfg, region, today, stamp, outcome, Live(Flatten(rs)));
    assert BackupRun(cfg, region, today, stamp, Success(rs), outcome).requests == [Request(region, Call.DescribeInstances(TagsToFind))] + listed;
    Associative(log0, [Request(region, Call.DescribeInstances(TagsToFind))], listed);
  }

  /** Reassociating the log once, here, keeps the solver from searching for it in every loop-step proof. */
  lemma Associative(a: seq<Request>, b: seq<Request>, c: seq<Request>)
    ensures (a + b) + c == a + (b + c)
  {
  }

  /** One more instance extends the requests by exactly that instance's. */
  lemma InstancesRequestsStep(cfg: Config, region: string, today: Date, stamp: string, outcome: Request -> Outcome,
                              xs: seq<Instance>, i: int, log0: seq<Request>, before: seq<Request>, after: seq<Request>)
    requires Valid(today) && 0 <= i < |xs|
    requires before == log0 + InstancesRequests(cfg, region, today, stamp, outcome, xs[..i])
    requires after == before + BackupRequests(cfg, region, today, stamp, outcome, xs[i])
    ensures after == log0 + InstancesRequests(cfg, region, today, stamp, outcome, xs[..i + 1])
  {
    assert xs[..i + 1][..i] == xs[..i];
    Associative(log0, InstancesRequests(cfg, region, today, stamp, outcome, xs[..i]), BackupRequests(cfg, region, today, stamp, outcome, xs[i]));
  }

  /** One turn of the backup loop, with its exceptions caught. */
  method BackupInstance(account: Account, cfg: Config, region: string, today: Date, stamp: string, x: Instance)
    requires Valid(today)
    modifies account
    ensures account.log == old(account.log) + BackupRequests(cfg, region, today, stamp, account.answers.outcome, x)
  {
    var name := InstanceName(x);
    var days := RetentionDays(x.tags, cfg.defaultRetention);
    if !cfg.dryRun {
      var image := account.CreateImage(region, x.instanceId, ImageName(name, stamp), ImageDescription(name, x.instanceId), true);
      if image.Returned? {
        var deleteAfter := DeleteAfterValue(today, days);
        if deleteAfter.Some? {
          var finalTags := SanitizeTags(x.tags + LifecycleTags(x.instanceId, deleteAfter.value, cfg.markerKey));
          var tagged := account.CreateTags(region, [image.imageId], finalTags);
        }
      }
    }
  }

  // ---------------------------------------------------------------------
  // The expiry pass
  // ---------------------------------------------------------------------

  /** What the expiry pass makes of an image's tags. */
  datatype Verdict = Undated | Unreadable(text: string) | NotDue | Due

  /**
   * No DeleteAfter tag: skipped. A DeleteAfter that `%m-%d-%Y` does not read: the parse
   * raises. Otherwise the image is due unless today comes strictly before its date, so
   * it is due on that very day.
   */
  function Judge(today: Date, tags: seq<Tag>): (v: Verdict)
    requires Valid(today)
    ensures v.Undated? <==> FirstValue(tags, DeleteAfterKey).None?
    ensures v.Unreadable? <==> FirstValue(tags, DeleteAfterKey).Some? && Parse(FirstValue(tags, DeleteAfterKey).value).None?
    ensures v.Unreadable? ==> v.text == FirstValue(tags, DeleteAfterKey).value
    ensures v.Due? <==> FirstValue(tags, DeleteAfterKey).Some? && Parse(FirstValue(tags, DeleteAfterKey).value).Some? &&
                        Ordinal(Parse(FirstValue(tags, DeleteAfterKey).value).value) <= Ordinal(today)
  {
    match FirstValue(tags, DeleteAfterKey)
    case None => Undated
    case Some(text) =>
      match Parse(text)
      case None => Unreadable(text)
      case Some(deleteDate) =>
        PrecedesIffOrdinal(today, deleteDate);
        if Precedes(today, deleteDate) then NotDue else Due
  }

  /**
   * `[i['Ebs']['SnapshotId'] for i in mappings if 'Ebs' in i]`, or None when an EBS entry
   * has no snapshot id and the lookup raises KeyError.
   */
  function SnapshotIds(mappings: seq<BlockDeviceMapping>): Option<seq<string>>
  {
    if mappings == [] then Some([])
    else
      match SnapshotIds(mappings[..|mappings| - 1])
      case None => None
      case Some(ids) =>
        match mappings[|mappings| - 1].ebs
        case None => Some(ids)
        case Some(Ebs(None)) => None
        case Some(Ebs(Some(id))) => Some(ids + [id])
  }

  /**
   * The lookup raises exactly when some EBS entry has no snapshot id; otherwise the ids are
   * those of the EBS entries, each kept, none invented.
   */
  lemma {:induction false} SnapshotIdsMembers(mappings: seq<BlockDeviceMapping>)
    ensures SnapshotIds(mappings).None? <==>
      exists k :: 0 <= k < |mappings| && mappings[k].ebs.Some? && mappings[k].ebs.value.snapshotId.None?
    ensures SnapshotIds(mappings).Some? ==> forall id :: id in SnapshotIds(mappings).value <==>
      exists k :: 0 <= k < |mappings| && mappings[k].ebs == Some(Ebs(Some(id)))
  {
    if mappings != [] {
      var front := mappings[..|mappings| - 1];
      SnapshotIdsMembers(front);
      assert forall k :: 0 <= k < |front| ==> front[k] == mappings[k];
    }
  }

  /** One DeleteSnapshot request per id, in order. */
  function SnapshotRequests(region: string, ids: seq<string>): seq<Request>
  {
    if ids == [] then []
    else SnapshotRequests(region, ids[..|ids| - 1]) + [Request(region, Call.DeleteSnapshot(ids[|ids| - 1]))]
  }

  lemma {:induction false} SnapshotRequestsOrder(region: string, ids: seq<string>)
    ensures |SnapshotRequests(region, ids)| == |ids|
    ensures forall j :: 0 <= j < |ids| ==> SnapshotRequests(region, ids)[j] == Request(region, Call.DeleteSnapshot(ids[j]))
  {
    if ids != [] {
      SnapshotRequestsOrder(region, ids[..|ids| - 1]);
    }
  }

  /**
   * The requests made for one image. A due image is deregistered and its snapshots deleted;
   * each of those calls has its exception caught on its own, so its outcome changes nothing.
   */
  function ImageRun(cfg: Config, region: string, today: Date, ami: Image): Run
    requires Valid(today)
  {
    match Judge(today, ami.tags)
    case Undated => Nothing
    case NotDue => Nothing
    case Unreadable(text) => Run([], Aborted(MalformedDeleteAfter(ami.imageId, text)))
    case Due =>
      var deregister := if cfg.dryRun then [] else [Request(region, Call.DeregisterImage(ami.imageId))];
      match SnapshotIds(ami.blockDeviceMappings)
      case None => Run(deregister, Aborted(MissingSnapshotId(ami.imageId)))
      case Some(ids) => Run(deregister + (if cfg.dryRun then [] else SnapshotRequests(region, ids)), Completed)
  }

  function ImagesRun(cfg: Config, region: string, today: Date, amis: seq<Image>): Run
    requires Valid(today)
  {
    if amis == [] then Nothing
    else Then(ImagesRun(cfg, region, today, amis[..|amis| - 1]), ImageRun(cfg, region, today, amis[|amis| - 1]))
  }

  /** The whole expiry pass over a region, given what describing its marked images answers. */
  function ExpiryRun(cfg: Config, region: string, today: Date, images: Result<seq<Image>, DescribeError>): Run
    requires Valid(today)
  {
    var describe := Request(region, Call.DescribeImages(cfg.markerKey, ImageOwners));
    match images
    case Failure(OptInRequired) => Run([describe], Completed)
    case Failure(OtherError) => Run([describe], Aborted(DescribeFailed(region)))
    case Success(amis) => Then(Run([describe], Completed), ImagesRun(cfg, region, today, amis))
  }

  /** Once a prefix of the images aborts, the later images add nothing. */
  lemma {:induction false} ImagesRunStops(cfg: Config, region: string, today: Date, amis: seq<Image>, k: int)
    requires Valid(today) && 0 <= k <= |amis|
    requires ImagesRun(cfg, region, today, amis[..k]).status.Aborted?
    ensures ImagesRun(cfg, region, today, amis) == ImagesRun(cfg, region, today, amis[..k])
  {
    if k == |amis| {
      assert amis[..k] == amis;
    } else {
      var front := amis[..|amis| - 1];
      assert front[..k] == amis[..k];
      ImagesRunStops(cfg, region, today, front, k);
    }
  }

  /** Deregister the marked images whose DeleteAfter date has come and delete their snapshots. */
  method DeleteExpiredAmis(account: Account, cfg: Config, region: string, today: Date) returns (status: Status)
    requires Valid(today)
    modifies account
    ensures var run := ExpiryRun(cfg, region, today, ImagesIn(account.answers, region));
      account.log == old(account.log) + run.requests && status == run.status
  {
    var described := account.DescribeImages(region, cfg.markerKey, ImageOwners);
    if described.Failure? {
      if described.error == OptInRequired {
        return Completed;
      }
      return Aborted(DescribeFailed(region));
    }
    ghost var middle := account.log;
    status := ExpireImages(account, cfg, region, today, described.value);
    ExpiryRunListed(cfg, region, today, described.value, old(account.log), middle, account.log);
  }

  lemma ExpiryRunListed(cfg: Config, region: string, today: Date, amis: seq<Image>,
                        log0: seq<Request>, middle: seq<Request>, after: seq<Request>)
    requires Valid(today)
    requires middle == log0 + [Request(region, Call.DescribeImages(cfg.markerKey, ImageOwners))]
    requires after == middle + ImagesRun(cfg, region, today, amis).requests
    ensures after == log0 + ExpiryRun(cfg, region, today, Success(amis)).requests
    ensures ExpiryRun(cfg, region, today, Success(amis)).status == ImagesRun(cfg, region, today, amis).status
  {
    Associative(log0, [Request(region, Call.DescribeImages(cfg.markerKey, ImageOwners))], ImagesRun(cfg, region, today, amis).requests);
  }

  /** The loop over the marked images; it ends early when an image's exception escapes. */
  method ExpireImages(account: Account, cfg: Config, region: string, today: Date, amis: seq<Image>) returns (status: Status)
    requires Valid(today)
    modifies account
    ensures account.log == old(account.log) + ImagesRun(cfg, region, today, amis).requests
    ensures status == ImagesRun(cfg, region, today, amis).status
  {
    for i := 0 to |amis|
      invariant ImagesRun(cfg, region, today, amis[..i]).status == Completed
      invariant account.log == old(account.log) + ImagesRun(cfg, region, today, amis[..i]).requests
    {
      ghost var before := account.log;
      status := ExpireImage(account, cfg, region, today, amis[i]);
      ImagesRunStep(cfg, region, today, amis, i, old(account.log), before, account.log);
      if status.Aborted? {
        ImagesRunStops(cfg, region, today, amis, i + 1);
        return;
      }
    }
    assert amis[..|amis|] == amis;
    return Completed;
  }

  /** One more image extends the run by exactly that image's requests. */
  lemma ImagesRunStep(cfg: Config, region: string, today: Date, amis: seq<Image>, i: int,
                      log0: seq<Request>, before: seq<Request>, after: seq<Request>)
    requires Valid(today) && 0 <= i < |amis|
    requires ImagesRun(cfg, region, today, amis[..i]).status == Completed
    requires before == log0 + ImagesRun(cfg, region, today, amis[..i]).requests
    requires after == before + ImageRun(cfg, region, today, amis[i]).requests
    ensures after == log0 + ImagesRun(cfg, region, today, amis[..i + 1]).requests
    ensures ImagesRun(cfg, region, today, amis[..i + 1]).status == ImageRun(cfg, region, today, amis[i]).status
  {
    assert amis[..i + 1][..i] == amis[..i];
    Associative(log0, ImagesRun(cfg, region, today, amis[..i]).requests, ImageRun(cfg, region, today, amis[i]).requests);
  }

  /**
   * One turn of the expiry loop. A skipped image makes no request; an exception from the
   * date parse or the snapshot lookup escapes; the deregister and delete calls have theirs caught.
   */
  method ExpireImage(account: Account, cfg: Config, region: string, today: Date, ami: Image) returns (status: Status)
    requires Valid(today)
    modifies account
    ensures account.log == old(account.log) + ImageRun(cfg, region, today, ami).requests
    ensures status == ImageRun(cfg, region, today, ami).status
  {
    var deleteAfter := FirstValue(ami.tags, DeleteAfterKey);
    if deleteAfter.None? {
      return Completed;
    }
    var deleteDate := Parse(deleteAfter.value);
    if deleteDate.None? {
      return Aborted(MalformedDeleteAfter(ami.imageId, deleteAfter.value));
    }
    if Precedes(today, deleteDate.value) {
      return Completed;
    }
    if !cfg.dryRun {
      var deregistered := account.DeregisterImage(region, ami.imageId);
    }
    var snapshots := SnapshotIds(ami.blockDeviceMappings);
    if snapshots.None? {
      return Aborted(MissingSnapshotId(ami.imageId));
    }
    if !cfg.dryRun {
      DeleteSnapshots(account, region, snapshots.value);
    }
    return Completed;
  }

  /** The loop over an image's snapshots; each failed delete is caught and the loop goes on. */
  method DeleteSnapshots(account: Account, region: string, ids: seq<string>)
    modifies account
    ensures account.log == old(account.log) + SnapshotRequests(region, ids)
  {
    for j := 0 to |ids|
      invariant account.log == old(account.log) + SnapshotRequests(region, ids[..j])
    {
      var deleted := account.DeleteSnapshot(region, ids[j]);
      assert ids[..j + 1][..j] == ids[..j];
    }
    assert ids[..|ids|] == ids;
  }

  // ---------------------------------------------------------------------
  // The entry point
  // ---------------------------------------------------------------------

  /** One region: the backup pass, then the expiry pass. */
  function RegionRun(cfg: Config, region: string, today: Date, stamp: string, answers: Answers): Run
    requires Valid(today)
  {
    Then(BackupRun(cfg, region, today, stamp, ReservationsIn(answers, region), answers.outcome),
         ExpiryRun(cfg, region, today, ImagesIn(answers, region)))
  }

  function RegionsRun(cfg: Config, regions: seq<string>, today: Date, stamp: string, answers: Answers): Run
    requires Valid(today)
  {
    if regions == [] then Nothing
    else Then(RegionsRun(cfg, regions[..|regions| - 1], today, stamp, answers), RegionRun(cfg, regions[|regions| - 1], today, stamp, answers))
  }

  /** Once a prefix of the regions aborts, the later regions add nothing. */
  lemma {:induction false} RegionsRunStops(cfg: Config, regions: seq<string>, today: Date, stamp: string, answers: Answers, k: int)
    requires Valid(today) && 0 <= k <= |regions|
    requires RegionsRun(cfg, regions[..k], today, stamp, answers).status.Aborted?
    ensures RegionsRun(cfg, regions, today, stamp, answers) == RegionsRun(cfg, regions[..k], today, stamp, answers)
  {
    if k == |regions| {
      assert regions[..k] == regions;
    } else {
      var front := regions[..|regions| - 1];
      assert front[..k] == regions[..k];
      RegionsRunStops(cfg, front, today, stamp, answers, k);
    }
  }

  /** One more region extends the run by exactly that region's requests. */
  lemma RegionsRunStep(cfg: Config, regions: seq<string>, today: Date, stamp: string, answers: Answers, i: int,
                       log0: seq<Request>, before: seq<Request>, after: seq<Request>)
    requires Valid(today) && 0 <= i < |regions|
    requires RegionsRun(cfg, regions[..i], today, stamp, answers).status == Completed
    requires before == log0 + RegionsRun(cfg, regions[..i], today, stamp, answers).requests
    requires after == before + RegionRun(cfg, regions[i], today, stamp, answers).requests
    ensures after == log0 + RegionsRun(cfg, regions[..i + 1], today, stamp, answers).requests
    ensures RegionsRun(cfg, regions[..i + 1], today, stamp, answers).status == RegionRun(cfg, regions[i], today, stamp, answers).status
  {
    assert regions[..i + 1][..i] == regions[..i];
    Associative(log0, RegionsRun(cfg, regions[..i], today, stamp, answers).requests, RegionRun(cfg, regions[i], today, stamp, answers).requests);
  }

  /** Appending a part's requests to a log that holds a completed run gives the log of the two together. */
  lemma Extend(log0: seq<Request>, before: seq<Request>, after: seq<Request>, done: Run, part: Run)
    requires done.status == Completed
    requires before == log0 + done.requests && after == before + part.requests
    ensures after == log0 + Then(done, part).requests && Then(done, part).status == part.status
  {
    Associative(log0, done.requests, part.requests);
  }

  /** The body of the handler's loop: the backup pass, then the expiry pass, in one region. */
  method ScanRegion(account: Account, cfg: Config, region: string, today: Date, stamp: string) returns (status: Status)
    requires Valid(today)
    modifies account
    ensures account.log == old(account.log) + RegionRun(cfg, region, today, stamp, account.answers).requests
    ensures status == RegionRun(cfg, region, today, stamp, account.answers).status
  {
    status := BackupTaggedInstancesInRegion(account, cfg, region, today, stamp);
    if status.Aborted? {
      return;
    }
    ghost var middle := account.log;
    status := DeleteExpiredAmis(account, cfg, region, today);
    Extend(old(account.log), middle, account.log,
           BackupRun(cfg, region, today, stamp, ReservationsIn(account.answers, region), account.answers.outcome),
           ExpiryRun(cfg, region, today, ImagesIn(account.answers, region)));
  }

  /** Every configured region in order, with no handler around either pass. */
  method LambdaHandler(account: Account, cfg: Config, today: Date, stamp: string) returns (status: Status)
    requires Valid(today)
    modifies account
    ensures var run := RegionsRun(cfg, cfg.regions, today, stamp, account.answers);
      account.log == old(account.log) + run.requests && status == run.status
  {
    var regions := cfg.regions;
    for i := 0 to |regions|
      invariant RegionsRun(cfg, regions[..i], today, stamp, account.answers).status == Completed
      invariant account.log == old(account.log) + RegionsRun(cfg, regions[..i], today, stamp, account.answers).requests
    {
      ghost var before := account.log;
      status := ScanRegion(account, cfg, regions[i], today, stamp);
      RegionsRunStep(cfg, regions, today, stamp, account.answers, i, old(account.log), before, account.log);
      if status.Aborted? {
        RegionsRunStops(cfg, regions, today, stamp, account.answers, i + 1);
        return;
      }
    }
    assert regions[..|regions|] == regions;
    return Completed;
  }

  // ---------------------------------------------------------------------
  // Dry runs change nothing
  // ---------------------------------------------------------------------

  lemma {:induction false} DryRunInstancesSilent(cfg: Config, region: string, today: Date, stamp: string, outcome: Request -> Outcome, xs: seq<Instance>)
    requires Valid(today) && cfg.dryRun
    ensures InstancesRequests(cfg, region, today, stamp, outcome, xs) == []
  {
    if xs != [] {
      DryRunInstancesSilent(cfg, region, today, stamp, outcome, xs[..|xs| - 1]);
    }
  }

  lemma {:induction false} DryRunImagesSilent(cfg: Config, region: string, today: Date, amis: seq<Image>)
    requires Valid(today) && cfg.dryRun
    ensures ImagesRun(cfg, region, today, amis).requests == []
  {
    if amis != [] {
      DryRunImagesSilent(cfg, region, today, amis[..|amis| - 1]);
    }
  }

  /** In a dry run a region sees its two describe calls and nothing else (only the first when that pass aborts). */
  lemma DryRunRegion(cfg: Config, region: string, today: Date, stamp: string, answers: Answers)
    requires Valid(today) && cfg.dryRun
    ensures var requests := RegionRun(cfg, region, today, stamp, answers).requests;
      requests == [Request(region, Call.DescribeInstances(TagsToFind))] ||
      requests == [Request(region, Call.DescribeInstances(TagsToFind)), Request(region, Call.DescribeImages(cfg.markerKey, ImageOwners))]
  {
    var reservations, images := ReservationsIn(answers, region), ImagesIn(answers, region);
    if reservations.Success? {
      DryRunInstancesSilent(cfg, region, today, stamp, answers.outcome, Live(Flatten(reservations.value)));
    }
    if images.Success? {
      DryRunImagesSilent(cfg, region, today, images.value);
    }
  }

  /** A dry run never creates, tags, deregisters or deletes anything, in any region. */
  lemma {:induction false} DryRunChangesNothing(cfg: Config, regions: seq<string>, today: Date, stamp: string, answers: Answers)
    requires Valid(today) && cfg.dryRun
    ensures ReadOnly(RegionsRun(cfg, regions, today, stamp, answers).requests)
  {
    if regions != [] {
      DryRunChangesNothing(cfg, regions[..|regions| - 1], today, stamp, answers);
      DryRunRegion(cfg, regions[|regions| - 1], today, stamp, answers);
    }
  }

  // ---------------------------------------------------------------------
  // Every live tagged instance gets its image attempt
  // ---------------------------------------------------------------------

  /** The instance ids named by the CreateImage requests, in order. */
  function ImagedInstances(requests: seq<Request>): seq<string>
  {
    if requests == [] then []
    else
      var last := requests[|requests| - 1];
      ImagedInstances(requests[..|requests| - 1]) + (if last.call.CreateImage? then [last.call.instanceId] else [])
  }

  lemma {:induction false} ImagedAppend(a: seq<Request>, b: seq<Request>)
    ensures ImagedInstances(a + b) == ImagedInstances(a) + ImagedInstances(b)
    decreases |b|
  {
    if b == [] {
      assert a + b == a;
    } else {
      assert (a + b)[..|a + b| - 1] == a + b[..|b| - 1];
      ImagedAppend(a, b[..|b| - 1]);
    }
  }

  function InstanceIds(xs: seq<Instance>): seq<string>
  {
    seq(|xs|, k requires 0 <= k < |xs| => xs[k].instanceId)
  }

  /**
   * Outside a dry run one CreateImage is attempted per instance, in order, whatever the earlier
   * attempts raised: a failure for one instance does not keep the next from being backed up.
   */
  lemma {:induction false} EveryInstanceImaged(cfg: Config, region: string, today: Date, stamp: string, outcome: Request -> Outcome, xs: seq<Instance>)
    requires Valid(today) && !cfg.dryRun
    ensures ImagedInstances(InstancesRequests(cfg, region, today, stamp, outcome, xs)) == InstanceIds(xs)
  {
    if xs != [] {
      var front, x := xs[..|xs| - 1], xs[|xs| - 1];
      EveryInstanceImaged(cfg, region, today, stamp, outcome, front);
      var done, own := InstancesRequests(cfg, region, today, stamp, outcome, front), BackupRequests(cfg, region, today, stamp, outcome, x);
      assert InstancesRequests(cfg, region, today, stamp, outcome, xs) == done + own;
      ImagedAppend(done, own);
      ImagedOnce(cfg, region, today, stamp, outcome, x);
      InstanceIdsSnoc(xs);
    }
  }

  lemma InstanceIdsSnoc(xs: seq<Instance>)
    requires xs != []
    ensures InstanceIds(xs) == InstanceIds(xs[..|xs| - 1]) + [xs[|xs| - 1].instanceId]
  {
  }

  /** One instance's turn names it in exactly one CreateImage request. */
  lemma ImagedOnce(cfg: Config, region: string, today: Date, stamp: string, outcome: Request -> Outcome, x: Instance)
    requires Valid(today) && !cfg.dryRun
    ensures ImagedInstances(BackupRequests(cfg, region, today, stamp, outcome, x)) == [x.instanceId]
  {
    var create := CreateImageRequest(region, stamp, x);
    var own := BackupRequests(cfg, region, today, stamp, outcome, x);
    ImagedSingle(create);
    assert own == [create] || (|own| == 2 && own[0] == create && own[1].call.CreateTags?);
    if |own| == 2 {
      ImagedSingle(own[1]);
      assert own == [create] + [own[1]];
      ImagedAppend([create], [own[1]]);
    }
  }

  lemma ImagedSingle(q: Request)
    ensures ImagedInstances([q]) == if q.call.CreateImage? then [q.call.instanceId] else []
  {
    assert [q][..0] == [];
  }

  /** The region's backup pass attempts an image of exactly its live, tagged instances, in reservation order. */
  lemma BackupImagesLiveInstances(cfg: Config, region: string, today: Date, stamp: string, answers: Answers, rs: seq<Reservation>)
    requires Valid(today) && !cfg.dryRun && ReservationsIn(answers, region) == Success(rs)
    ensures ImagedInstances(BackupRun(cfg, region, today, stamp, ReservationsIn(answers, region), answers.outcome).requests) ==
            InstanceIds(Live(Flatten(rs)))
  {
    var describe := Request(region, Call.DescribeInstances(TagsToFind));
    var listed := InstancesRequests(cfg, region, today, stamp, answers.outcome, Live(Flatten(rs)));
    EveryInstanceImaged(cfg, region, today, stamp, answers.outcome, Live(Flatten(rs)));
    ImagedAppend([describe], listed);
    assert ImagedInstances([describe]) == [] by {
      assert [describe][..0] == [];
    }
  }

  // ---------------------------------------------------------------------
  // From backup to expiry
  // ---------------------------------------------------------------------

  /**
   * The life of one backup. Outside a dry run, once the image is created it is tagged exactly
   * when today plus the retention period is still a calendar date; and then the image id is the
   * one created, and judged on any later day the tags sent hold a readable date: due exactly
   * when at least the retention period has passed (on the last day itself, too). The instance
   * must not carry its own DeleteAfter tag, which would be copied and come first in the list sent.
   */
  lemma BackupThenExpiry(cfg: Config, region: string, today: Date, stamp: string, outcome: Request -> Outcome, x: Instance, later: Date)
    requires Valid(today) && Valid(later) && !cfg.dryRun
    requires outcome(CreateImageRequest(region, stamp, x)).Returned?
    requires FirstValue(x.tags, DeleteAfterKey).None?
    ensures var days := RetentionDays(x.tags, cfg.defaultRetention);
      var requests := BackupRequests(cfg, region, today, stamp, outcome, x);
      && requests[0] == CreateImageRequest(region, stamp, x)
      && (|requests| == 2 <==> 1 <= Ordinal(today) + days <= MaxOrdinal)
      && (|requests| == 2 ==>
            && requests[1].call.CreateTags?
            && requests[1].call.resources == [outcome(requests[0]).imageId]
            && var verdict := Judge(later, requests[1].call.tags);
               (verdict.Due? || verdict.NotDue?) && (verdict.Due? <==> Ordinal(today) + days <= Ordinal(later)))
  {
    var days := RetentionDays(x.tags, cfg.defaultRetention);
    var deleteAfter := DeleteAfterValue(today, days);
    if deleteAfter.Some? {
      ImageDeleteAfter(x, deleteAfter.value, cfg.markerKey);
    }
  }

  /**
   * When today plus the retention period leaves the calendar, the image has already been
   * created and stays untagged: it carries no marker, so no expiry pass will ever find it.
   */
  lemma OverflowLeavesImageUntagged(cfg: Config, region: string, today: Date, stamp: string, outcome: Request -> Outcome, x: Instance)
    requires Valid(today) && !cfg.dryRun
    requires !(1 <= Ordinal(today) + RetentionDays(x.tags, cfg.defaultRetention) <= MaxOrdinal)
    ensures BackupRequests(cfg, region, today, stamp, outcome, x) == [CreateImageRequest(region, stamp, x)]
  {
  }

  // ---------------------------------------------------------------------
  // The expiry pass touches only due images
  // ---------------------------------------------------------------------

  /** `q` is a change the expiry pass may make for `ami`: it is due, and `q` deregisters it or deletes one of its snapshots. */
  predicate Justified(q: Request, region: string, today: Date, ami: Image)
    requires Valid(today)
  {
    && q.region == region
    && Judge(today, ami.tags).Due?
    && ((q.call.DeregisterImage? && q.call.imageId == ami.imageId) ||
        (q.call.DeleteSnapshot? && SnapshotIds(ami.blockDeviceMappings).Some? &&
         q.call.snapshotId in SnapshotIds(ami.blockDeviceMappings).value))
  }

  lemma ImageRunJustified(cfg: Config, region: string, today: Date, ami: Image)
    requires Valid(today)
    ensures forall q :: q in ImageRun(cfg, region, today, ami).requests ==> Justified(q, region, today, ami)
  {
    if Judge(today, ami.tags).Due? && SnapshotIds(ami.blockDeviceMappings).Some? && !cfg.dryRun {
      var ids := SnapshotIds(ami.blockDeviceMappings).value;
      SnapshotRequestsOrder(region, ids);
      forall q | q in SnapshotRequests(region, ids) ensures Justified(q, region, today, ami) {
        var j :| 0 <= j < |ids| && SnapshotRequests(region, ids)[j] == q;
        assert q.call.snapshotId == ids[j];
      }
    }
  }

  /**
   * Every deregister and snapshot delete of the expiry pass belongs to a listed image that is
   * due: an image without a DeleteAfter tag, or whose date lies after today, is never touched.
   */
  lemma {:induction false} ExpiryTouchesOnlyDueImages(cfg: Config, region: string, today: Date, amis: seq<Image>)
    requires Valid(today)
    ensures forall q :: q in ImagesRun(cfg, region, today, amis).requests ==>
      exists k :: 0 <= k < |amis| && Justified(q, region, today, amis[k])
  {
    if amis != [] {
      var front, ami := amis[..|amis| - 1], amis[|amis| - 1];
      ExpiryTouchesOnlyDueImages(cfg, region, today, front);
      ImageRunJustified(cfg, region, today, ami);
      forall q | q in ImagesRun(cfg, region, today, amis).requests
        ensures exists k :: 0 <= k < |amis| && Justified(q, region, today, amis[k])
      {
        if q in ImagesRun(cfg, region, today, front).requests {
          var k :| 0 <= k < |front| && Justified(q, region, today, front[k]);
          assert amis[k] == front[k];
        } else {
          assert Justified(q, region, today, amis[|amis| - 1]);
        }
      }
    }
  }

  /**
   * A due image outside a dry run: deregistered first, then each snapshot of its EBS entries
   * deleted in mapping order; the deletes are requested whatever the deregister call answered.
   */
  lemma DueImageCascade(cfg: Config, region: string, today: Date, ami: Image)
    requires Valid(today) && !cfg.dryRun && Judge(today, ami.tags).Due? && SnapshotIds(ami.blockDeviceMappings).Some?
    ensures var run := ImageRun(cfg, region, today, ami);
      var ids := SnapshotIds(ami.blockDeviceMappings).value;
      && run.status == Completed
      && |run.requests| == 1 + |ids|
      && run.requests[0] == Request(region, Call.DeregisterImage(ami.imageId))
      && forall j :: 0 <= j < |ids| ==> run.requests[1 + j] == Request(region, Call.DeleteSnapshot(ids[j]))
  {
    SnapshotRequestsOrder(region, SnapshotIds(ami.blockDeviceMappings).value);
  }

  /**
   * A due image with an EBS entry that lacks a snapshot id: the image is deregistered (outside
   * a dry run), none of its snapshots is deleted, and the lookup's KeyError ends the invocation.
   */
  lemma MissingSnapshotIdAborts(cfg: Config, region: string, today: Date, ami: Image)
    requires Valid(today) && Judge(today, ami.tags).Due?
    requires exists k :: 0 <= k < |ami.blockDeviceMappings| && ami.blockDeviceMappings[k].ebs.Some? &&
                         ami.blockDeviceMappings[k].ebs.value.snapshotId.None?
    ensures ImageRun(cfg, region, today, ami) ==
      Run(if cfg.dryRun then [] else [Request(region, Call.DeregisterImage(ami.imageId))], Aborted(MissingSnapshotId(ami.imageId)))
  {
    SnapshotIdsMembers(ami.blockDeviceMappings);
  }

  /** The requests made for a prefix of the images come first in the requests made for all of them. */
  lemma {:induction false} ImagesRunPrefix(cfg: Config, region: string, today: Date, amis: seq<Image>, j: int)
    requires Valid(today) && 0 <= j <= |amis|
    ensures ImagesRun(cfg, region, today, amis[..j]).requests <= ImagesRun(cfg, region, today, amis).requests
  {
    if j == |amis| {
      assert amis[..j] == amis;
    } else {
      var front := amis[..|amis| - 1];
      assert front[..j] == amis[..j];
      ImagesRunPrefix(cfg, region, today, front, j);
    }
  }

  /**
   * Outside a dry run, every due image listed before the first image that raises is
   * deregistered: its DeregisterImage request is among those of the whole expiry pass.
   */
  lemma DueImagesDeregistered(cfg: Config, region: string, today: Date, amis: seq<Image>, k: int)
    requires Valid(today) && !cfg.dryRun && 0 <= k < |amis|
    requires ImagesRun(cfg, region, today, amis[..k]).status == Completed
    requires Judge(today, amis[k].tags).Due?
    ensures Request(region, Call.DeregisterImage(amis[k].imageId)) in ImagesRun(cfg, region, today, amis).requests
  {
    var deregister := Request(region, Call.DeregisterImage(amis[k].imageId));
    var done := ImagesRun(cfg, region, today, amis[..k]).requests;
    var own := ImageRun(cfg, region, today, amis[k]).requests;
    assert amis[..k + 1][..k] == amis[..k] && amis[..k + 1][k] == amis[k];
    assert ImagesRun(cfg, region, today, amis[..k + 1]).requests == done + own;
    assert own[0] == deregister;
    assert (done + own)[|done|] == deregister;
    ImagesRunPrefix(cfg, region, today, amis, k + 1);
    var all := ImagesRun(cfg, region, today, amis).requests;
    assert all[|done|] == deregister;
  }

  // ---------------------------------------------------------------------
  // Regions
  // ---------------------------------------------------------------------

  lemma {:induction false} InstancesRequestsInRegion(cfg: Config, region: string, today: Date, stamp: string, outcome: Request -> Outcome, xs: seq<Instance>)
    requires Valid(today)
    ensures InRegion(InstancesRequests(cfg, region, today, stamp, outcome, xs), region)
  {
    if xs != [] {
      InstancesRequestsInRegion(cfg, region, today, stamp, outcome, xs[..|xs| - 1]);
    }
  }

  lemma {:induction false} ImagesRunInRegion(cfg: Config, region: string, today: Date, amis: seq<Image>)
    requires Valid(today)
    ensures InRegion(ImagesRun(cfg, region, today, amis).requests, region)
  {
    if amis != [] {
      ImagesRunInRegion(cfg, region, today, amis[..|amis| - 1]);
      var ami := amis[|amis| - 1];
      if Judge(today, ami.tags).Due? && SnapshotIds(ami.blockDeviceMappings).Some? {
        SnapshotRequestsOrder(region, SnapshotIds(ami.blockDeviceMappings).value);
      }
    }
  }

  /** Each region's passes talk to that region's client only. */
  lemma RegionRunInRegion(cfg: Config, region: string, today: Date, stamp: string, answers: Answers)
    requires Valid(today)
    ensures InRegion(RegionRun(cfg, region, today, stamp, answers).requests, region)
  {
    var reservations, images := ReservationsIn(answers, region), ImagesIn(answers, region);
    var describe := [Request(region, Call.DescribeInstances(TagsToFind))];
    var backup := BackupRun(cfg, region, today, stamp, reservations, answers.outcome);
    var expiry := ExpiryRun(cfg, region, today, images);
    if reservations.Success? {
      InstancesRequestsInRegion(cfg, region, today, stamp, answers.outcome, Live(Flatten(reservations.value)));
      InRegionAppend(describe, InstancesRequests(cfg, region, today, stamp, answers.outcome, Live(Flatten(reservations.value))), region);
    }
    if images.Success? {
      ImagesRunInRegion(cfg, region, today, images.value);
      InRegionAppend([Request(region, Call.DescribeImages(cfg.markerKey, ImageOwners))], ImagesRun(cfg, region, today, images.value).requests, region);
    }
    InRegionAppend(backup.requests, expiry.requests, region);
  }

  lemma InRegionAppend(a: seq<Request>, b: seq<Request>, region: string)
    requires InRegion(a, region) && InRegion(b, region)
    ensures InRegion(a + b, region)
  {
    forall k | |a| <= k < |a + b| ensures (a + b)[k].region == region {
      assert (a + b)[k] == b[k - |a|];
    }
  }

  lemma {:induction false} RegionsRunRegions(cfg: Config, regions: seq<string>, today: Date, stamp: string, answers: Answers)
    requires Valid(today)
    ensures forall q :: q in RegionsRun(cfg, regions, today, stamp, answers).requests ==> q.region in regions
  {
    if regions != [] {
      var front := regions[..|regions| - 1];
      RegionsRunRegions(cfg, front, today, stamp, answers);
      RegionRunInRegion(cfg, regions[|regions| - 1], today, stamp, answers);
      forall q | q in RegionsRun(cfg, regions, today, stamp, answers).requests ensures q.region in regions {
        if q in RegionsRun(cfg, front, today, stamp, answers).requests {
          var k :| 0 <= k < |front| && front[k] == q.region;
          assert regions[k] == front[k];
        }
      }
    }
  }

  /**
   * With no handler around the passes, the first region that aborts ends the invocation with
   * its fault, and no later region receives any request.
   */
  lemma FirstFaultEndsInvocation(cfg: Config, regions: seq<string>, today: Date, stamp: string, answers: Answers, k: int)
    requires Valid(today) && 0 <= k < |regions|
    requires RegionsRun(cfg, regions[..k], today, stamp, answers).status == Completed
    requires RegionRun(cfg, regions[k], today, stamp, answers).status.Aborted?
    ensures RegionsRun(cfg, regions, today, stamp, answers).status == RegionRun(cfg, regions[k], today, stamp, answers).status
    ensures forall q :: q in RegionsRun(cfg, regions, today, stamp, answers).requests ==> q.region in regions[..k + 1]
  {
    assert regions[..k + 1][..k] == regions[..k];
    RegionsRunStops(cfg, regions, today, stamp, answers, k + 1);
    RegionsRunRegions(cfg, regions[..k + 1], today, stamp, answers);
  }

  /**
   * A region that needs opt-in loses only the pass whose describe call reported it; any other
   * describe error ends the region at once, before its expiry pass.
   */
  lemma DescribeInstancesErrors(cfg: Config, region: string, today: Date, stamp: string, answers: Answers)
    requires Valid(today) && ReservationsIn(answers, region).Failure?
    ensures var run := RegionRun(cfg, region, today, stamp, answers);
      var expiry := ExpiryRun(cfg, region, today, ImagesIn(answers, region));
      var describe := Request(region, Call.DescribeInstances(TagsToFind));
      && (ReservationsIn(answers, region).error == OptInRequired ==> run.requests == [describe] + expiry.requests && run.status == expiry.status)
      && (ReservationsIn(answers, region).error == OtherError ==> run == Run([describe], Aborted(DescribeFailed(region))))
  {
  }

  // ---------------------------------------------------------------------
  // Worked cases
  // ---------------------------------------------------------------------

  /** A readable Retention tag overrides the default; an unreadable one, even next to a readable one, falls back to it. */
  lemma RetentionCases()
    ensures RetentionDays([Tag(RetentionKey, "3")], DefaultRetentionDays) == 3
    ensures RetentionDays([Tag(RetentionKey, "x")], DefaultRetentionDays) == DefaultRetentionDays
    ensures RetentionDays([Tag(RetentionKey, "3"), Tag(RetentionKey, "x")], DefaultRetentionDays) == DefaultRetentionDays
    ensures RetentionDays([Tag("Name", "web")], DefaultRetentionDays) == DefaultRetentionDays
  {
    assert ParseInt("3") == Some(3) by {
      assert AllDigits("3");
      assert DigitsValue("3") == 3 by {
        assert DigitsValue("") == 0;
      }
    }
    assert ParseInt("x").None? by {
      assert !IsDigit('x');
    }
    var two := [Tag(RetentionKey, "3"), Tag(RetentionKey, "x")];
    assert ValuesOf(two, RetentionKey) == ["3", "x"] by {
      assert two[1..][1..] == [];
    }
  }

  /** A CloudFormation tag copied from an instance is renamed; the instance's Name is kept as it is. */
  lemma SanitizeCase()
    ensures var stack := "aws:cloudformation:stack-name";
      Sanitized([Tag(stack, "web"), Tag(NameKey, "web-1")]) == [Tag(RenamePrefix + stack, "web"), Tag(NameKey, "web-1")]
  {
    var stack := "aws:cloudformation:stack-name";
    assert StartsWith(stack, ReservedPrefix) by {
      assert stack[..4] == "aws:";
    }
    assert !StartsWith(NameKey, ReservedPrefix) by {
      assert NameKey[0] != ReservedPrefix[0];
    }
  }

  /** An image with one EBS volume and one instance-store device: only the EBS snapshot is deleted. */
  lemma SnapshotCase()
    ensures SnapshotIds([BlockDeviceMapping("/dev/xvda", Some(Ebs(Some("snap-A")))), BlockDeviceMapping("/dev/sdb", None)]) == Some(["snap-A"])
  {
    var m := [BlockDeviceMapping("/dev/xvda", Some(Ebs(Some("snap-A")))), BlockDeviceMapping("/dev/sdb", None)];
    var first := m[..1];
    assert first[..0] == [] && first[0] == m[0];
    assert SnapshotIds(first[..0]) == Some([]);
    assert [] + ["snap-A"] == ["snap-A"];
    assert SnapshotIds(first) == Some(["snap-A"]);
  }

  /** Three days after 27 February 2024 is 1 March (2024 is a leap year), and that image is due on 1 March but not on 29 February. */
  lemma ExpiryCase()
    ensures DeleteAfterValue(Date(2024, 2, 27), 3) == Some("03-01-2024")
    ensures Judge(Date(2024, 3, 1), [Tag(DeleteAfterKey, "03-01-2024")]) == Due
    ensures Judge(Date(2024, 2, 29), [Tag(DeleteAfterKey, "03-01-2024")]) == NotDue
    ensures Judge(Date(2024, 3, 1), [Tag(DeleteAfterKey, "2024-03-01")]).Unreadable?
  {
    assert AddDays(Date(2024, 2, 27), 3) == Some(Date(2024, 3, 1));
    assert Format(Date(2024, 3, 1)) == "03-01-2024";
    ParseFormat(Date(2024, 3, 1));
  }
}
