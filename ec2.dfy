/**
 * The slice of the EC2 API the job uses, as seen from the job: the records the
 * describe calls return, the requests the job sends, and an account object that
 * answers them and keeps the log of every request it received, in order.
 */
module Ec2 {
  import opened Wrappers
  import opened Tags

  /** An entry of a reservation's `Instances` list. */
  datatype Instance = Instance(instanceId: string, stateName: string, tags: seq<Tag>)

  /** An entry of `describe_instances(...)['Reservations']`. */
  datatype Reservation = Reservation(instances: seq<Instance>)

  /** The `Ebs` entry of a block-device mapping; `SnapshotId` can be absent. */
  datatype Ebs = Ebs(snapshotId: Option<string>)

  /** An entry of an image's `BlockDeviceMappings`; instance-store mappings have no `Ebs`. */
  datatype BlockDeviceMapping = BlockDeviceMapping(deviceName: string, ebs: Option<Ebs>)

  /** An entry of `describe_images(...)['Images']`. */
  datatype Image = Image(imageId: string, tags: seq<Tag>, blockDeviceMappings: seq<BlockDeviceMapping>)

  /** Why a describe call failed; only opt-in regions are told apart from everything else. */
  datatype DescribeError = OptInRequired | OtherError

  /** The requests the job sends, with the arguments that vary. */
  datatype Call =
    | DescribeInstances(tagKeys: seq<string>)
    | CreateImage(instanceId: string, name: string, description: string, noReboot: bool)
    | CreateTags(resources: seq<string>, tags: seq<Tag>)
    | DescribeImages(tagKey: string, owners: seq<string>)
    | DeregisterImage(imageId: string)
    | DeleteSnapshot(snapshotId: string)
  {
    /** The calls that change something in the account. */
    predicate Changes()
    {
      CreateImage? || CreateTags? || DeregisterImage? || DeleteSnapshot?
    }
  }

  /** A call sent through the client of one region. */
  datatype Request = Request(region: string, call: Call)

  /** How a changing call ended: `create_image` returns the new image's id; any call can raise. */
  datatype Outcome = Returned(imageId: string) | Raised

  /** What the account answers, fixed for the duration of a run. */
  datatype Answers = Answers(
    reservations: string -> Result<seq<Reservation>, DescribeError>,
    images: string -> Result<seq<Image>, DescribeError>,
    outcome: Request -> Outcome)

  /** What describing a region's tagged instances answers. */
  function ReservationsIn(a: Answers, region: string): Result<seq<Reservation>, DescribeError>
  {
    a.reservations(region)
  }

  /** What describing a region's marked images answers. */
  function ImagesIn(a: Answers, region: string): Result<seq<Image>, DescribeError>
  {
    a.images(region)
  }

  /** How a changing request ends. */
  function OutcomeOf(a: Answers, q: Request): Outcome
  {
    a.outcome(q)
  }

  /** The AWS account the job talks to, region by region. */
  class Account {
    const answers: Answers
    var log: seq<Request>

    constructor (answers: Answers)
      ensures this.answers == answers && log == []
    {
      this.answers := answers;
      log := [];
    }

    method DescribeInstances(region: string, tagKeys: seq<string>) returns (r: Result<seq<Reservation>, DescribeError>)
      modifies this
      ensures log == old(log) + [Request(region, Call.DescribeInstances(tagKeys))]
      ensures r == ReservationsIn(answers, region)
    {
      log := log + [Request(region, Call.DescribeInstances(tagKeys))];
      r := ReservationsIn(answers, region);
    }

    method CreateImage(region: string, instanceId: string, name: string, description: string, noReboot: bool)
      returns (r: Outcome)
      modifies this
      ensures log == old(log) + [Request(region, Call.CreateImage(instanceId, name, description, noReboot))]
      ensures r == OutcomeOf(answers, Request(region, Call.CreateImage(instanceId, name, description, noReboot)))
    {
      var request := Request(region, Call.CreateImage(instanceId, name, description, noReboot));
      log := log + [request];
      r := OutcomeOf(answers, request);
    }

    method CreateTags(region: string, resources: seq<string>, tags: seq<Tag>) returns (r: Outcome)
      modifies this
      ensures log == old(log) + [Request(region, Call.CreateTags(resources, tags))]
      ensures r == OutcomeOf(answers, Request(region, Call.CreateTags(resources, tags)))
    {
      var request := Request(region, Call.CreateTags(resources, tags));
      log := log + [request];
      r := OutcomeOf(answers, request);
    }

    method DescribeImages(region: string, tagKey: string, owners: seq<string>) returns (r: Result<seq<Image>, DescribeError>)
      modifies this
      ensures log == old(log) + [Request(region, Call.DescribeImages(tagKey, owners))]
      ensures r == ImagesIn(answers, region)
    {
      log := log + [Request(region, Call.DescribeImages(tagKey, owners))];
      r := ImagesIn(answers, region);
    }

    method DeregisterImage(region: string, imageId: string) returns (r: Outcome)
      modifies this
      ensures log == old(log) + [Request(region, Call.DeregisterImage(imageId))]
      ensures r == OutcomeOf(answers, Request(region, Call.DeregisterImage(imageId)))
    {
      var request := Request(region, Call.DeregisterImage(imageId));
      log := log + [request];
      r := OutcomeOf(answers, request);
    }

    method DeleteSnapshot(region: string, snapshotId: string) returns (r: Outcome)
      modifies this
      ensures log == old(log) + [Request(region, Call.DeleteSnapshot(snapshotId))]
      ensures r == OutcomeOf(answers, Request(region, Call.DeleteSnapshot(snapshotId)))
    {
      var request := Request(region, Call.DeleteSnapshot(snapshotId));
      log := log + [request];
      r := OutcomeOf(answers, request);
    }
  }
}
