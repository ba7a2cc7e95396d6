# Long-running EMR cluster alert — a Dafny model

This project models the decision logic of `long_running_cluster.py`, a scheduled job that
lists the active EMR clusters of an account, picks the ones that have been ready for at
least three hours, looks up each such cluster's `Owner` tag and mails an alert to that
owner with the operations address in copy, or to the operations address alone.

Modules, one per concern of the script:

- `Wrappers` — `Option`, for the values the script reads with `dict.get`.
- `Text` — `str.strip()` (`Strip`) and `str.lower()` (`Lower`).
- `EmailPattern` — the address check `^[^@]+@[^@]+\.[^@]+$` as a predicate on strings
  (`IsEmailAddress`), proved equivalent to a piece-by-piece reading of the pattern
  (`MatchesPattern`).
- `OwnerTags` — the tag scan: the function `Scan` (generic in the address test), the loop
  `ScanTags` proved to compute it, its declarative characterisation (the scan ends at the
  first tag that stops it), and the as-written and corrected address tests.
- `Alert` — `send_email`'s destination and subject.
- `Monitor` — one cluster's handling (`ProcessCluster`, `HandleCluster`) and the run over all
  pages (`Run`), with per-cluster outcomes instead of exceptions and prints. Like `Scan`, all
  three take the owner-address test `accept` as a parameter: the script's own run is
  `accept = IsEmailAddress`, the corrected run `accept = StrippedIsEmailAddress` (see Findings).

Time is an integer number of microseconds (the resolution of Python's `datetime`), so the
threshold is `3 * 3_600_000_000`. The clock reading `now`, the describe call and the mail
service are parameters of the run: `describe: string -> DescribeReply` answers with the
cluster's tags or an error, `deliver: Email -> bool` says whether the mail service accepts a
message. Any exception raised between the describe call and the alert (the call itself, or
a tag without `Key`, or an owner tag without `Value`) ends that cluster as `DescribeFailed`,
as the script's `except` at line 90 does; a rejected alert ends it as `NotifyFailed`.

Two points where a looser reading of the job is possible follow the code exactly: tags are
an ordered list, not a key-normalised map; and an owner tag with an empty value does not end
the scan (the `and tag['Value']` guard at line 85), so "the first owner tag wins" means the
first owner tag with a non-empty value. The script applies the address pattern to the raw
value and stores the trimmed one; the driver lemmas hold for any test, and the two tests are
compared under Findings.

## Model

| member | source | states |
|---|---|---|
| `Text.LeadingSpace` | long_running_cluster.py:87 | the length of the whitespace run that starts the value: every character before it is whitespace and the next one is not |
| `Text.TrailingSpace` | long_running_cluster.py:87 | the length of the whitespace run that ends the value: every character in it is whitespace and the one before it is not |
| `Text.Strip` | long_running_cluster.py:87 | `str.strip()`: the result is a contiguous slice of the value, everything outside it is whitespace, and it neither starts nor ends with whitespace |
| `Text.LeadingSpaceAt` | long_running_cluster.py:87 | the leading whitespace run ends at the first non-whitespace character |
| `Text.TrailingSpaceAt` | long_running_cluster.py:87 | the trailing whitespace run starts after the last non-whitespace character |
| `Text.StripBetween` | long_running_cluster.py:87 | when everything before position i and from position j on is whitespace and s[i], s[j-1] are not, `str.strip()` gives exactly s[i..j] |
| `Text.StripIdempotent` | long_running_cluster.py:87 | stripping a stripped value changes nothing |
| `Text.StripOfTrimmed` | long_running_cluster.py:87 | a value without whitespace at either end is stored unchanged |
| `Text.Lower` | long_running_cluster.py:85 | `str.lower()` keeps the length and lowers each character |
| `EmailPattern.IsEmailAddress` | long_running_cluster.py:15 | an accepted value has at least five characters and does not start with '@' |
| `EmailPattern.EmailShapeMatchesPattern` | long_running_cluster.py:15 | the address check accepts a value if and only if it is a full match of `[^@]+@[^@]+\.[^@]+`: exactly one '@', a non-empty part before it, and a '.' with at least one character on each side after it |
| `EmailPattern.TwoAtsRejected` | long_running_cluster.py:15 | a value holding two '@' is rejected, wherever they stand |
| `EmailPattern.NoAtRejected` | long_running_cluster.py:15 | a value without '@', the empty value included, is rejected |
| `EmailPattern.RejectsMissingAt` | long_running_cluster.py:15 | "not-an-email" is rejected |
| `EmailPattern.RejectsDomainWithoutDot` | long_running_cluster.py:15 | "a@b" (no dot in the domain) is rejected |
| `EmailPattern.RejectsEmptyLocalPart` | long_running_cluster.py:15 | "@example.com" (nothing before the '@') is rejected |
| `EmailPattern.RejectsDoubleAt` | long_running_cluster.py:15 | "a@@example.com" is rejected |
| `EmailPattern.AcceptsPlainAddress` | long_running_cluster.py:15 | "alice@example.com" is accepted |
| `OwnerTags.IsOwnerKey` | long_running_cluster.py:85 | an owner key has exactly five characters |
| `OwnerTags.Scan` | long_running_cluster.py:83-88 | the scan finds at most one recipient, whatever the address test |
| `OwnerTags.OwnerKeyIgnoresCase` | long_running_cluster.py:85 | a key is an owner key if and only if it is five characters each equal to the letter of "owner" in lower or upper case; no padding or suffix is tolerated |
| `OwnerTags.OwnerKeySpellings` | long_running_cluster.py:85 | "owner", "Owner" and "OWNER" match; " owner", "owners" and "Owner_" do not |
| `OwnerTags.ScanTags` | long_running_cluster.py:83-88 | the loop with its `append` and early `break` computes exactly the scan `Scan` for any address test |
| `OwnerTags.ScanEndsAtFirstStop` | long_running_cluster.py:84-88 | the scan's result is decided by the first tag that stops it (a tag without key, or an owner tag whose value is missing or non-empty); nothing after that tag is looked at |
| `OwnerTags.ScanWithoutStop` | long_running_cluster.py:83-84 | when no tag stops the scan, there is no recipient |
| `OwnerTags.ScanYieldsFirstOwnerValue` | long_running_cluster.py:83-88 | a single recipient is the stripped value of the first owner tag with a non-empty value, and that raw value passed the address test |
| `OwnerTags.PassingTagIsIgnored` | long_running_cluster.py:85 | a tag with a non-owner key (whatever its value, even a missing one) or an owner key with an empty value can be inserted anywhere without changing the result |
| `OwnerTags.RejectedOwnerSuppressesLaterOwners` | long_running_cluster.py:85-88 | when the first owner tag with a non-empty value fails the test there is no recipient, whatever owner tags follow |
| `OwnerTags.ScanDependsOnlyOnTestedValues` | long_running_cluster.py:86 | two address tests that agree on the tag values give the same scan |
| `OwnerTags.ResolveAsWritten` | long_running_cluster.py:86-87 | as written, a single recipient is the stripped form of some value that passed the address pattern; the recipient itself need not pass it |
| `OwnerTags.Resolve` | long_running_cluster.py:86-87 | with the test applied to the value that is stored, every recipient satisfies the address pattern |
| `OwnerTags.PaddedValuePassesPattern` | long_running_cluster.py:15 | the raw value " @domain.com" passes the address pattern |
| `OwnerTags.PaddedValueStrips` | long_running_cluster.py:87 | " @domain.com" is stored as "@domain.com" |
| `OwnerTags.AsWrittenStoresMalformedAddress` | long_running_cluster.py:86-87 | as written, an owner tag " @domain.com" yields the recipient "@domain.com", which fails the pattern |
| `OwnerTags.CorrectionAgreesOnUnpaddedValues` | long_running_cluster.py:86-87 | for tag values without surrounding whitespace the corrected resolution equals the one as written |
| `OwnerTags.LoneOwnerTagResolves` | long_running_cluster.py:83-88 | a lone owner tag whose value is a well-formed address without surrounding whitespace yields exactly that recipient, under either test |
| `OwnerTags.ValidOwnerScenario` | long_running_cluster.py:83-88 | an owner tag "alice@example.com" yields exactly that recipient, as written and corrected |
| `OwnerTags.NotAnAddressRejected` | long_running_cluster.py:86 | "bad-value" fails the address test, applied to the raw value as the script does and to the stripped value |
| `OwnerTags.InvalidOwnerScenario` | long_running_cluster.py:83-88 | an invalid first owner value "bad-value" hides a later valid owner tag, as written and corrected; no tags give no recipient under either test |
| `Alert.BuildDestination` | long_running_cluster.py:34-42 | the addresses are exactly the recipients followed by the fallback; owner recipients are the `To` list with only the fallback in `Cc`, no recipients give the fallback as the sole `To` and no `Cc` |
| `Alert.FallbackIsSolePrimaryWithoutOwner` | long_running_cluster.py:34-42 | when the fallback is not itself a recipient, it is the sole primary recipient exactly when no owner address was found |
| `Alert.Subject` | long_running_cluster.py:19 | the subject is the fixed prefix, then the cluster name, then the cluster id in parentheses at its end |
| `Alert.AlertEmail` | long_running_cluster.py:18-53 | the message has the fixed sender, the subject naming the cluster, the elapsed duration, and the fallback among its addresses, which are the recipients plus the fallback |
| `Monitor.SendEmail` | long_running_cluster.py:44-57 | an alert is always attempted with the message for this cluster; the outcome is `Notified` exactly when the mail service accepts it, and a rejection is recorded rather than raised |
| `Monitor.IsLongRunning` | long_running_cluster.py:77-78 | a cluster without a ready time is never long-running; one ready for exactly the threshold is, one ready for less is not |
| `Monitor.TagsOrEmpty` | long_running_cluster.py:82 | a missing `Tags` entry reads as no tags, a present one as itself |
| `Monitor.Flatten` | long_running_cluster.py:68-69 | every cluster of every page is in the listing, and the listing holds nothing else |
| `Monitor.ProcessCluster` | long_running_cluster.py:70-91 | for any address test, the outcome is always recorded under the cluster's own id |
| `Monitor.HandleCluster` | long_running_cluster.py:70-91 | for any address test, the loop body (readiness check, duration check, describe, tag scan, alert, each failure caught) computes exactly `ProcessCluster` |
| `Monitor.Run` | long_running_cluster.py:68-91 | for any address test, every cluster of every page gets exactly one outcome, in listing order, computed with the same `now` and independent of every other cluster's failures |
| `Monitor.MissingReadyIsSkipped` | long_running_cluster.py:72-75 | a cluster without `ReadyDateTime` is neither described nor emailed |
| `Monitor.EmailedExactlyWhenLongRunning` | long_running_cluster.py:74-91 | skipped exactly when not ready; left alone exactly when ready for less than the threshold; emailed exactly when long-running, described successfully and its tags readable |
| `Monitor.ThresholdIsInclusive` | long_running_cluster.py:77-78 | ready for exactly three hours is long-running (described); a microsecond less is not |
| `Monitor.AlertAddressesOwnerAndFallback` | long_running_cluster.py:34-42 | for any address test, every attempted alert goes to the resolved owner (at most one address: the stripped value of the first owner tag with a non-empty value, a value that passed the test) plus the fallback, names the cluster in its subject and carries `now - ready` as duration |
| `Monitor.CorrectedAlertsAreWellFormed` | long_running_cluster.py:86-89 | with the test applied to the stored value, every address of an attempted alert other than the fallback satisfies the address pattern |
| `Monitor.AsWrittenAlertsMalformedOwner` | long_running_cluster.py:86-89 | as written, a long-running cluster whose owner tag is " @domain.com" is mailed to "@domain.com", which fails the pattern, with the fallback in copy |
| `Monitor.CorrectionAgreesOnUnpaddedClusters` | long_running_cluster.py:86-87 | on a cluster whose tag values carry no surrounding whitespace, the script's handling and the corrected one give the same outcome |
| `Monitor.AtMostOneAlertPerCluster` | long_running_cluster.py:68-91 | with distinct cluster ids, a run attempts exactly one alert for each cluster whose handling reaches the mail service and none for the others |
| `Monitor.NoAttemptsForAbsentId` | long_running_cluster.py:68-91 | a run attempts no alert for a cluster id it did not list |
| `Monitor.ReadableClusterIsMailed` | long_running_cluster.py:77-89 | for any address test, a long-running cluster whose tags read without error is handed to `send_email` with the scan's recipients and the time since it became ready |
| `Monitor.OwnedClusterIsMailed` | long_running_cluster.py:68-91 | a cluster ready for at least the threshold whose one tag is an owner tag holding a well-formed address without surrounding whitespace (e.g. "alice@example.com", see `OwnerTags.ValidOwnerScenario`) is mailed to that owner with the fallback in copy, when the mail service accepts it, as written and corrected |
| `Monitor.UnownedClusterScenarios` | long_running_cluster.py:68-91 | a cluster ready for 2 h is left alone; one ready for 5 h without tags is mailed to the fallback alone; one whose describe call fails ends as `DescribeFailed` |

## Findings

| source | as written | input that shows it | evidently intended | confidence | as-written member | corrected member |
|---|---|---|---|---|---|---|
| long_running_cluster.py:86-87 | the address pattern is tested on the raw tag value, but the stripped value is stored as the recipient | owner tag value `" @domain.com"`: the blank counts as a local part, so the pattern matches, and `"@domain.com"` is stored; likewise `"a@b. "` stores `"a@b."` | every stored recipient satisfies the address pattern (otherwise the mail service rejects the whole message, and the fallback copy is lost with it) | medium, not executed | `OwnerTags.AsWrittenStoresMalformedAddress` | `OwnerTags.Resolve` |

`OwnerTags.ResolveAsWritten` keeps the script's test; the corrected `OwnerTags.Resolve` tests
the stripped value and promises well-formed recipients. The driver takes the test as a
parameter: `Monitor.AsWrittenAlertsMalformedOwner` shows the script's run mailing the
malformed address, `Monitor.CorrectedAlertsAreWellFormed` proves the corrected run never does,
and `OwnerTags.CorrectionAgreesOnUnpaddedValues` and `Monitor.CorrectionAgreesOnUnpaddedClusters`
show the two differ only on values with surrounding whitespace.

## Left out

- The boto3 EMR and SES clients, the paginator and its server-side `ClusterStates` filter: foreign calls. The listing is given as a sequence of pages; the describe call and the mail service are the parameters `describe` and `deliver`.
- A failure of the listing call itself, which ends the whole run: the run starts from pages already listed.
- The cluster's state: the script never examines it beyond the listing filter.
- `datetime.now(timezone.utc)`: the clock is the parameter `now`, read once for the run.
- The body text template, `str(timedelta)` formatting, the message charsets and the `print` logging: output cosmetics without decisions; the email carries the duration as an integer instead of the body.
- Text.Lower: lowers the ASCII letters only; Python also lowers other letters, but no character outside ASCII lowers to a letter of "owner", so the owner-key comparison is the same.
- The `$` of the address pattern also accepts a value followed by one final newline; since `[^@]` matches a newline as well, this accepts nothing extra and is not modelled separately.
- Exceptions other than the ones named above (a non-string tag value, a malformed describe response): the service returns strings and well-formed responses.
- A listed cluster without `Id`, `Name` or `Status.Timeline` (lines 70-72, outside the `try`): the script would raise there and end the whole run; the model takes every listed cluster to carry these fields, so `Run`'s per-cluster isolation covers only the failures inside the `try` at line 80.
