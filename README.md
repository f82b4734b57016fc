# ns-checker core in Dafny

This project models the core of ns-checker: the record store and the
forward/reverse consistency checker. The store keeps every parsed DNS
resource record in insertion order, together with one bucket of records
per type code. The checker builds three reverse-lookup indexes (A, AAAA and
PTR) from the store on first use and caches them. It then reports:

- every A record with no matching PTR record;
- every AAAA record with no matching PTR record;
- every PTR record with no matching A or AAAA record.

Modules:

- `Dns` (dns.dfy): the records, their type codes, and the reverse-lookup key
  of an address. This is what `dns.ReverseAddr(ip.String())` yields, worked
  out on the address bytes.
- `Zones` (zones.dfy): the `Records` class, with the `list` and `types`
  fields the Go methods update. Its invariant is that the buckets partition
  the list by type code.
- `CheckerIndex` (checker_index.dfy): the two-level index
  `name -> key -> record`, and `Build`, a function that specifies the build
  loop. Lemmas cover failure, well-formedness, which slots exist, and the
  overwriting of duplicate keys.
- `Checker` (checker.dfy): `Failures`, a set-valued function that
  specifies each check. `ScanName` and `CollectFailures` are the nested
  check loops, proved against it. The `Checker` class has the three caches
  (`None` stands for Go's nil map), the `prepare*` methods and the three
  checks.
- `Report` (report.dfy): `FormatFailed` as written, and a corrected version
  (see Findings).
- `Scenarios` (scenarios.dfy): small stores passed to the checker's methods, with the results proved,
  some after the cases of `checker/checker_test.go`.

Go map iteration order is unspecified, so each check's result is specified
as a set. A record is in the result exactly when it is in `Failures`, and
no record appears twice.

Two behaviours of the code are worth stating plainly:

- `prepare` (checker/checker.go:29-40) stops at the first failing build, so
  a bad A record means the AAAA and PTR indexes are never attempted. See
  `Checker.PrepareStopsAtA` and `Checker.PrepareAll`.
- Only the index whose build failed is reset to nil (checker/checker.go:53,
  77, 99); indexes built by earlier calls stay set.

## Model

| member | source | states |
|---|---|---|
| Dns.Tag | checker/checker.go:46 | The type code is 1 exactly for A, 28 exactly for AAAA, and 12 exactly for PTR records. |
| Dns.ReverseKey | checker/checker.go:50 | An address has a reverse-lookup key exactly when it is 4 or 16 bytes long. |
| Dns.ReverseKeyZone | checker/checker.go:50 | The key of an IPv4 address, in either form, lies in in-addr.arpa and not in ip6.arpa. The key of any other 16-byte address lies in ip6.arpa. |
| Dns.V4NotV6 | checker/checker.go:98 | No name lies in both reverse zones. |
| Zones.Bucket | zones/records.go:50-54 | Every record in a bucket has the bucket's type code. |
| Zones.InBucket | zones/records.go:50-54 | A record is in the bucket for `t` exactly when it is in the list and has type code `t`. |
| Zones.BucketAppend | zones/records.go:72-78 | Filtering by type code distributes over concatenation. |
| Zones.AddPreservesPartition | zones/records.go:49-55 | Appending a record and filing it in its bucket keeps the buckets a partition of the list. |
| Zones.MergePreservesPartition | zones/records.go:71-84 | Merging two partitioned stores gives a partitioned store. |
| Zones.PartitionBuckets | zones/records.go:50-54 | In a partitioned store a type code has a bucket exactly when some record has it. That bucket is non-empty and holds only listed records of its type. |
| Zones.ListLengthIsSumOfBucketSizes | zones/records_test.go:22-27 | When the type codes are listed once each, the bucket sizes add up to the number of records. |
| Zones.Records.constructor | zones/records.go:45-47 | A new store is empty and partitioned. |
| Zones.Records.Add | zones/records.go:49-55 | The record is appended to the list and to its bucket. The bucket is created when the type is new. The partition invariant is kept. |
| Zones.Records.Parse | zones/records.go:48-55 | The parsed records are appended in order and each is filed in its bucket. The partition invariant is kept. |
| Zones.Records.List | zones/records.go:64-68 | Returns the list. When the store is partitioned, filtering the copy gives back every bucket. |
| Zones.Records.Merge | zones/records.go:71-84 | The other store's list is appended, and its buckets are appended bucket by bucket. Buckets of types the other store lacks are unchanged. The invariant is kept. |
| Zones.Records.GetByType | zones/records.go:88-95 | Returns the bucket for `t`, or nothing when `t` is absent. In a partitioned store this is the list filtered by `t`. |
| Zones.Records.Types | zones/records.go:98-104 | Each bucket's type code appears once, and no other code appears. In a partitioned store their bucket sizes sum to the list length. |
| CheckerIndex.FirstRejected | checker/checker.go:48-55 | The position of the first record the build rejects, with every earlier record accepted. It is -1 exactly when every record is accepted. |
| CheckerIndex.BuildFails | checker/checker.go:50-55 | A build fails exactly when some record is rejected. Its error is the rejection of the first such record. Same code at lines 74-79 and 98-101. |
| CheckerIndex.BuildErrorSticks | checker/checker.go:50-55 | Once a build has failed, further records do not change its error. |
| CheckerIndex.BuildStep | checker/checker.go:48-62 | A successful build is the build of all records but the last, with the last record inserted under its key. |
| CheckerIndex.InsertSlots | checker/checker.go:56-61 | Inserting adds exactly the slot (name, key), which then holds the record. Every other slot is unchanged. |
| CheckerIndex.BuildWellFormed | checker/checker.go:47-62 | A built index has no empty inner map. Every record sits under its own name and key. |
| CheckerIndex.BuildFilesEveryRecord | checker/checker.go:46-62 | Every record of a successful build has a slot in the index. Same code at lines 70-86 and 94-109. |
| CheckerIndex.BuildKeepsLastRecord | checker/checker.go:57 | A record that no later record shares a key with is the record in its slot. Same code at lines 81 and 103. |
| CheckerIndex.LastIndexOf | checker/checker.go:57 | The position of the last record filed under a key, or -1 when none is. Same code at lines 81 and 103. |
| CheckerIndex.BuildSlots | checker/checker.go:47-62 | A built index has a slot exactly for each key some record is filed under. That slot holds the last such record. |
| CheckerIndex.OverwrittenRecordIsLost | checker/checker.go:57 | A record overwritten by a later record with the same key, and not repeated, is nowhere in the index. Same code at lines 81 and 103. |
| Checker.WellFormedInjective | checker/checker.go:56-61 | In a well-formed index, no two keys of a name hold the same record, and each record is filed under that name. |
| Checker.FailuresAmongStep | checker/checker.go:119-131 | Examining one more name adds all of its records when none of its keys matches, and nothing otherwise. |
| Checker.ScanName | checker/checker.go:122-127 | Succeeds exactly when some key of the name matches. Otherwise it collects each of the name's records, each once when no two keys hold the same record. Same code at lines 145-150 and 172-179. |
| Checker.CollectFailures | checker/checker.go:119-131 | Returns exactly the records of the names with no matching key, with no duplicates in a well-formed index. Same code at lines 142-154 and 165-183. |
| Checker.ReportedByName | checker/checker.go:119-131 | A name's records are all reported exactly when none of its keys matches, and none are reported otherwise. Same code at lines 142-154 and 165-183. |
| Checker.PairedForwardNotReported | checker/checker.go:119-131 | A forward record whose PTR record points back at it is not reported. Same code at lines 142-154. |
| Checker.PairedPtrNotReported | checker/checker.go:165-183 | A PTR record pointing back at a forward record in the index its zone selects is not reported. |
| Checker.DanglingPtrReported | checker/checker.go:172-182 | A PTR record none of whose owner's targets has a forward entry holding that owner is reported. |
| Checker.MappedAAAAPtrIsCheckedAgainstA | checker/checker.go:168-171 | An AAAA record with an IPv4-mapped address passes its check. Its PTR record is reported whenever none of the PTR owner's targets has an A record. The reverse key comes from line 74. |
| Checker.BucketBuildFails | checker/checker.go:46-55 | Building the index of a type fails exactly when some record of that type is rejected. Same code at lines 70-79 and 94-101. |
| Checker.PrepareFails | checker/checker.go:29-40 | `prepare` fails exactly when some record is rejected by the build of an index that is still unbuilt. |
| Checker.PrepareStopsAtA | checker/checker.go:30-32 | A failed A build is the error reported. The A index stays unbuilt and the other two are left as they were. The A build resets its cache at line 53. |
| Checker.PrepareIsIdempotent | checker/checker.go:43-45 | After a successful `prepare` all three indexes are built, and preparing again on any store changes nothing. Same code at lines 67-69 and 91-93. |
| Checker.PrepareFailsAgain | checker/checker.go:53 | A failed `prepare` fails again with the same error on the same store. Same code at lines 77 and 99. |
| Checker.BuiltIndexFits | checker/checker.go:46-62 | An index built from records of one type is well formed and holds only that type. |
| Checker.BuildIndex | checker/checker.go:47-62 | The build loop returns exactly what `Build` specifies, stopping at the first rejected record. Same code at lines 71-86 and 95-108. |
| Checker.Checker.constructor | checker/checker.go:22-27 | A new checker wraps the store, with no index built. |
| Checker.Checker.PrepareA | checker/checker.go:42-64 | A cached A index is kept. Otherwise the A bucket is built, and the cache stays unbuilt on error. |
| Checker.Checker.PrepareAAAA | checker/checker.go:66-88 | The same, for AAAA. |
| Checker.Checker.PreparePTR | checker/checker.go:90-110 | The same, for PTR. |
| Checker.Checker.Prepare | checker/checker.go:29-40 | Prepares A, then AAAA, then PTR, stopping at the first error. |
| Checker.Checker.CheckA | checker/checker.go:114-133 | On an error, returns no failures. Otherwise returns exactly the A records of names with no PTR for any of their reverse keys, each once. |
| Checker.Checker.CheckAAAA | checker/checker.go:137-156 | The same, for the AAAA index. |
| Checker.Checker.CheckPTR | checker/checker.go:160-185 | On an error, returns no failures. Otherwise returns exactly the PTR records of owners none of whose targets has a forward entry holding the owner, each once. |
| Report.Names | checker/checker.go:193-200 | The owner names of the records, position by position. |
| Report.FirstOccurrencesMembers | checker/checker.go:191-201 | The first occurrences hold every name once and nothing else, starting with the first name. |
| Report.FormatFailed | checker/checker.go:187-203 | Returns the first name, then each later name at its first occurrence among the later names. |
| Report.FormattedOnceWhenFirstNameUnique | checker/checker.go:191-201 | When the first name does not recur, the output is each name once, in first-occurrence order. |
| Report.FormatFailedRepeatsFirstName | checker/checker.go:191-201 | Two records with the same name produce the name twice, where the intended output has it once. |
| Report.FormatFailedOnce | checker/checker.go:187-203 | Returns the names joined by the separator, each once, in first-occurrence order. |
| Report.FormatFailedOnceListsEachNameOnce | checker/checker.go:191-201 | The corrected output names every failing record, lists each name once, and lists no other name. |
| Scenarios.CachedIndexOutlivesBadRecord | checker/checker_test.go:54-59 | A cached A index is reused after a record its build would reject joins the store. |
| Scenarios.UncachedIndexReportsBadRecord | checker/checker_test.go:60-61 | Without a cached index the same store fails with the bad address. |
| Scenarios.BadPtrOwnerFailsEveryCheck | checker/checker_test.go:42-50 | A PTR owner outside both reverse zones makes all three checks fail with that owner. |
| Scenarios.OnlyOrphanReported | checker/checker.go:114-133 | With a matched A/PTR pair and an A record under another name without a PTR, `CheckA` reports exactly the second record. |
| Scenarios.MatchedPtrNotReported | checker/checker.go:160-185 | In the same store `CheckPTR` reports nothing. |

## Left out

- `ParseDirectory` and the file handling of `parse` (opening files, the
  zone-file parser and its errors) are I/O. `Zones.Records.Parse` takes the
  records the parser yields.
- `TypesString` only renders type names as text.
- `net.IP.String` and `dns.ReverseAddr` are not modelled separately. Their
  composition is `Dns.ReverseKey`, worked out on the address bytes. Any
  address that is not 4 or 16 bytes is rejected, which is the case the tests
  hit with a 1-byte address.
- cmd/root.go is not part of this model. It holds the command line, the
  mutex around the checks, and printing.
- Go map iteration order is not modelled. Check results are specified as
  sets without duplicates.
- Pointer aliasing is not modelled: records are values. The tests corrupt a
  record through a pointer shared with the store. The scenarios add a bad
  record to the store instead.
- The type assertions in the `prepare*` loops never see a record of the
  wrong type here. A record that is not A, AAAA or PTR never carries type
  code 1, 12 or 28, so they cannot panic. `ErrWrongType` is never used by
  the code and is left out.
- Error messages are modelled as an `Error` datatype carrying the offending
  address or owner, not as formatted text.

## Findings

| source | as written | input that shows it | evidently intended | confidence | as-written member | corrected member |
|---|---|---|---|---|---|---|
| checker/checker.go:191-201 | The first failing record's name is written but never added to `seen`, so it is written again when a later failing record has the same name. | Two failing records with the owner name `h.` and separator `,` give `h.,h.`. | Each name appears once, in first-seen order. | not executed | Report.FormatFailed, Report.FormatFailedRepeatsFirstName | Report.FormatFailedOnce, Report.FormatFailedOnceListsEachNameOnce |
