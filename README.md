# Daily instance images and their expiry, in Dafny

This project models the Lambda job in `handler.py`. The job runs once a day and
works through a list of AWS regions, one after another. In each region it:

1. finds the instances carrying a `backup` or `Backup` tag key that are not
   terminated, and creates an image (AMI) of each without rebooting it;
2. tags each new image with all the instance's tags, where any key in the
   reserved `aws:` namespace is renamed. Three lifecycle tags follow them: a
   `DeleteAfter` date (today plus the instance's `Retention` days, or the
   default), the id of its instance, and a marker key;
3. lists the images the account owns that carry the marker, deregisters every
   image whose `DeleteAfter` date has come, and deletes the snapshots behind it.

The model is built from these modules:

- `Wrappers`: the `Option` and `Result` datatypes.
- `Text`: prefixes, `split` and `join`.
- `Decimal`: `int()` on text.
- `Calendar`: the proleptic Gregorian dates of Python's `datetime.date`, their
  ordinal day numbers, `date + timedelta`, and the order of the `struct_time`
  values made from dates.
- `DateFormat`: `strftime` and `strptime` for `%m-%d-%Y`.
- `Tags`: EC2 tag lists and the renaming of keys in the reserved `aws:` namespace.
- `Ec2`: the records the describe calls return, the requests the job sends, and
  the `Account` class. An `Account` answers each request from fixed `Answers`
  and appends the request to its `log`.
- `Settings`: the environment variables read when the job is loaded.
- `Handler`: the job itself.

The job in `Handler` is imperative code over an `Account`:

- `LambdaHandler`, `ScanRegion`, `BackupTaggedInstancesInRegion`,
  `DeleteExpiredAmis` and their per-item loops. Each of these is proved to append
  exactly the requests given by a specification function (`RegionsRun`,
  `RegionRun`, `BackupRun`, `ExpiryRun`) and to end with that function's status.
- A status is `Completed` or `Aborted(fault)`. A fault is an exception that no
  handler catches, so it ends the whole invocation.
- The properties of the job are lemmas about those specification functions.

The clock and AWS enter as parameters:

- `today` is the current date. `stamp` is the current time, already formatted
  for image names.
- `Answers` holds what each describe call returns and how each changing call ends.

Three facts about the code shape the model:

- `lambda_handler` has no handler around either pass (handler.py:192-200). An
  exception that escapes a pass therefore ends the whole invocation, and later
  regions are not scanned. The model's fault kinds for these exceptions are:
  - `DescribeFailed`: a describe error other than opt-in;
  - `MalformedDeleteAfter`: a `DeleteAfter` that `strptime` rejects;
  - `MissingSnapshotId`: an EBS mapping without a `SnapshotId`.

  `FirstFaultEndsInvocation` proves the effect.
- The `ValueError` that `strptime` raises on a malformed `DeleteAfter` is not
  caught (handler.py:159), so such an image ends the invocation rather than
  being skipped.
- The only backup path is instance to image. Snapshots are deleted only as
  the ones behind an image that the expiry pass deregisters or tries to
  deregister. The deletes are sent even when `deregister_image` raised. No
  volume is snapshotted directly.

## Model

| member | source | states |
|---|---|---|
| Settings.LoadConfig | handler.py:13-37 | The configured regions are the comma-split `LIMIT_TO_REGIONS` when it is set and non-empty, else the fifteen built-in regions. The default retention is `DEFAULT_RETENTION_TIME` as an integer, else 7. Loading fails exactly when that variable is set and not an integer. The marker key is `KEY_TO_TAG_ON`, else `AWSAutomatedDailySnapshots`. Dry run is on exactly when `DRY_RUN` is `true` or `True`. |
| Settings.RegionOverride | handler.py:19-20 | A region override is split losslessly: joining the regions with commas gives the variable back, and no region contains a comma. |
| Settings.EmptyEnvironmentDefaults | handler.py:13-37 | A variable set to the empty text counts as unset. With only empty variables, every setting takes its default and dry run is off. |
| Handler.SelectInstances | handler.py:58-64 | The nested loop returns the instances of all reservations in order, without the terminated ones. |
| Handler.SelectionMembers | handler.py:58-64 | An instance is selected exactly when some reservation holds it and its state is not `terminated`. |
| Handler.InstanceName | handler.py:72-75 | The name is the value of the first `Name` tag; with no such tag it is the instance id. |
| Tags.FirstValue | handler.py:73 | The `[...][0]` lookup with its `except`: there is no value exactly when no tag has the key. Otherwise the value is that of the first tag with the key. |
| Handler.RetentionDays | handler.py:79-82 | With no `Retention` tag, or any `Retention` value that `int()` rejects, the retention is the default. When every `Retention` value converts, it is the first one's value. |
| Handler.ParseAll | handler.py:80 | Converting a list of values fails exactly when one value fails. Otherwise each element is its value converted. |
| Handler.ParseAllValues | handler.py:80 | The conversion of the matching `Retention` values fails exactly when some tag with that key holds a non-integer. |
| Handler.RetentionCases | handler.py:79-82 | Worked cases: `"3"` gives 3. `"x"`, `"3"` followed by `"x"`, and no tag each give the default. |
| Handler.DeleteAfterValue | handler.py:103 | There is a `DeleteAfter` text exactly when today plus the retention lies between 0001-01-01 and 9999-12-31. Read back with `%m-%d-%Y`, that text is the date that many days after today. |
| Handler.ImageTagsShape | handler.py:104-114 | The tags sent are the instance's tags in order, then `DeleteAfter`, `OriginalInstanceID` and the marker set to `true`. Every `aws:` key is renamed to `internal-aws:…`, and no key sent is left in the reserved namespace. |
| Handler.ImageDeleteAfter | handler.py:104-117 | The first `DeleteAfter` in the tags sent to `create_tags` is the instance's own `DeleteAfter` tag when it has one, else the value just computed. |
| Handler.ImageOrigin | handler.py:104-117 | The first `OriginalInstanceID` in the tags sent to `create_tags` is the instance's own such tag when it has one, else the instance id. |
| Handler.SanitizeTags | handler.py:108-114 | The loop's result is the tag list with every key in the reserved namespace given the `internal-` prefix, values unchanged. |
| Tags.SanitizedIdempotent | handler.py:109-114 | Renaming twice changes nothing more than renaming once. |
| Tags.FirstValueSanitized | handler.py:109-114 | Renaming leaves the first value under every key that is neither reserved nor renamed unchanged. |
| Handler.SanitizeCase | handler.py:107-114 | Worked case: a CloudFormation `aws:` tag is renamed and the `Name` tag is kept. |
| Handler.BackupTaggedInstancesInRegion | handler.py:42-122 | The backup pass sends the describe call. An opt-in error ends the pass quietly, and any other error aborts. Otherwise one turn is made per selected instance: `create_image`, then `create_tags` only when the image was created and the date exists. An exception inside a turn ends only that turn. In a dry run no changing request is made. |
| Handler.BackupInstance | handler.py:85-122 | One instance's turn appends exactly that instance's requests to the log. |
| Handler.BackupInstances | handler.py:68-122 | The loop over the selected instances appends each instance's turn to the log, in order. |
| Handler.EveryInstanceImaged | handler.py:68-99 | Outside a dry run, exactly one `create_image` is sent per instance, in order, whatever the earlier calls raised. |
| Handler.BackupImagesLiveInstances | handler.py:58-99 | The backup pass images exactly the selected live instances, in reservation order. |
| Handler.BackupThenExpiry | handler.py:93-118 | For an instance without its own `DeleteAfter` tag, the new image is tagged exactly when today plus the retention is a calendar date. The tags go to the image id that `create_image` returned. Judged with the expiry rule on any later day, the tags sent hold a readable date. They are due exactly when at least the retention period has passed, including on the last day itself. |
| Handler.OverflowLeavesImageUntagged | handler.py:93-103 | When the date addition overflows, the image has already been created and no `create_tags` follows, so the image stays untagged. |
| Handler.Judge | handler.py:150-162 | An image without `DeleteAfter` is skipped. A `DeleteAfter` that `%m-%d-%Y` does not read is an escaping error. Otherwise the image is due exactly when its date is today or earlier. |
| Handler.DeleteExpiredAmis | handler.py:128-183 | The expiry pass sends the describe call for marked images owned by the account. An opt-in error ends the pass quietly, and any other error aborts. Images are then handled in order until one raises. |
| Handler.ExpireImage | handler.py:147-183 | One image's turn appends exactly that image's requests: the deregistration, then one delete per snapshot. It ends with the image's status. |
| Handler.ExpireImages | handler.py:147-183 | The loop over the images appends each image's requests in order. It stops at the first image that raises and ends with that image's status, otherwise it completes. |
| Handler.DeleteSnapshots | handler.py:178-183 | One `delete_snapshot` is sent per id, in order. A failed call does not stop the loop. |
| Handler.SnapshotIdsMembers | handler.py:178 | Collecting snapshot ids fails exactly when an EBS entry has no `SnapshotId`. Otherwise an id is collected exactly when some EBS entry carries it, and instance-store entries are skipped. |
| Handler.SnapshotRequestsOrder | handler.py:178-181 | The delete requests follow the collected ids one for one, in order. |
| Handler.SnapshotCase | handler.py:178 | Worked case: an EBS mapping with `snap-A` next to an instance-store device gives exactly `snap-A`. |
| Handler.ExpiryTouchesOnlyDueImages | handler.py:147-183 | Every deregister or snapshot delete of the expiry pass belongs to a listed image that is due, and names that image or one of its own snapshots. |
| Handler.DueImagesDeregistered | handler.py:147-173 | Outside a dry run, every due image listed before the first image that raises has its `deregister_image` request in the expiry pass. |
| Handler.ImagesRunPrefix | handler.py:147-183 | The requests for the first images of the list come first in the requests for the whole list. |
| Handler.DueImageCascade | handler.py:170-183 | Outside a dry run, a due image with readable mappings gets one deregister, then one delete per snapshot in mapping order, and its turn completes. |
| Handler.MissingSnapshotIdAborts | handler.py:165-178 | For a due image with an EBS entry lacking `SnapshotId`, the deregistration is still sent (outside a dry run). No snapshot is deleted, and the KeyError ends the invocation. |
| Handler.ExpiryCase | handler.py:103-160 | Worked case: three days after 2024-02-27 is written `03-01-2024`. That image is due on 1 March but not on 29 February. A `2024-03-01` date cannot be read. |
| Handler.ImagesRunStops | handler.py:147-183 | After an image raises, later images get no request. |
| Handler.ScanRegion | handler.py:196-200 | An iteration in one region runs the backup pass and then the expiry pass. The expiry pass is skipped when the backup pass aborted. |
| Handler.LambdaHandler | handler.py:189-200 | The regions are scanned in order. The log is exactly the concatenated requests of the regions, up to and including the first one that aborts, and the status is that abort, else completed. |
| Handler.DryRunChangesNothing | handler.py:86-168 | In a dry run no create, tag, deregister or delete request reaches any region. |
| Handler.DryRunRegion | handler.py:86-168 | In a dry run each region sees only its instance describe call and, unless that call aborted, its image describe call. |
| Handler.RegionRunInRegion | handler.py:192-200 | Every request made while scanning a region goes to that region's client. |
| Handler.RegionsRunRegions | handler.py:192-200 | Every request of the invocation goes to one of the configured regions. |
| Handler.FirstFaultEndsInvocation | handler.py:192-200 | The first region that aborts ends the invocation with its fault, and no later region receives a request. |
| Handler.DescribeInstancesErrors | handler.py:47-55 | An opt-in error on the instance describe call skips only the backup pass, and the expiry pass still runs. Any other describe error ends the region before its expiry pass. |
| Handler.RegionsRunStops | handler.py:192-200 | After a region aborts, later regions add nothing. |
| DateFormat.ParseFormat | handler.py:103 | A date written with `%m-%d-%Y` reads back as the same date. |
| DateFormat.FormatParse | handler.py:159 | A ten-character text without spaces that `%m-%d-%Y` reads is exactly the written form of its date. |
| Calendar.PrecedesIffOrdinal | handler.py:160 | Comparing the `struct_time` values of two dates is comparing their ordinal day numbers. |
| Calendar.AddDaysOrdinal | handler.py:103 | Adding days succeeds exactly when the resulting ordinal is between 1 and 3652059, and moves the ordinal by that many days. |
| Calendar.DaysBeforeYearClosedForm | handler.py:103 | The days before a year agree with the closed form Python's `date` uses. |
| Decimal.ParseIntToString | handler.py:80 | Every integer's decimal text is read back by the `int()` model as that integer. |

## Left out

- AWS is not called. `boto3` clients are replaced by the `Account` class with fixed `Answers`. AWS-side tag filtering of describe results is assumed to have been done: the model takes the answers as given.
- Printing, `traceback.print_exception` and the text of log lines are not modelled. The dry-run snapshot line prints the image id where the snapshot id was meant (handler.py:168); this affects only the output.
- The clock is a parameter. `today` is the date. `stamp` is one formatted time for the whole run, although the source calls `datetime.now()` for each instance and the date can change during a run.
- The environment is a `map` passed to `Settings.LoadConfig`, read once; the source reads it at import time. A failure to load is `None`.
- An opt-in error is recognised in the source by the text `OptInRequired` inside the exception's description. The model receives it as the error kind `OptInRequired`.
- `Decimal.ParseInt` accepts an optional sign followed by ASCII digits. Python's `int()` also accepts surrounding whitespace, underscores between digits and non-ASCII digits.
- `DateFormat.Parse` reads ASCII digits only, where `strptime` also accepts non-ASCII decimal digits. `DateFormat.Format` assumes `%Y` zero-pads years below 1000 to four digits. Whether it does depends on the CPython version and the C library; where it writes such a year unpadded, `strptime` rejects the text. The case needs a retention below about -370,000 days.
- Records missing a key are not modelled: no `Tags` on an instance or image, no `Key` or `Value` in a tag, no `State`. `t.get('Value')` returning `None` is not modelled either. In the model every instance and image has a tag list and every tag has both parts.
- The source appends the lifecycle tags to the described instance's own tag list in place. The model builds the same list as a new sequence, since the described record is not used afterwards.
- The tags an expiry pass reads from an image are assumed to be exactly the list the backup pass sent to `create_tags`, in order, duplicates included. The model does not link a `create_tags` request to a later `describe_images` answer. Nor does it model how EC2, which keeps one value per key, handles duplicate keys within one `create_tags` call. For an instance with its own `DeleteAfter`, `OriginalInstanceID` or marker-key tag, the tags sent hold that key twice.
- The Lambda `event` and `context` arguments are unused by the source and are not parameters.
- `struct_time` fields other than year, month and day are not modelled. For values made from dates they are equal, or they are determined by the date.
- Concurrency is not modelled, nor the effect of requests on what later describe calls return. The answers are fixed for one invocation.
