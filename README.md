# VN.Task.Manager — a verified model of the scheduled-task host

This project models, in Dafny, the core of the VN.Task.Manager job host: the
command-line host that validates the registered tasks and dispatches `/help`
and `/list`, the usage table it lays out for a task's arguments, the
recurrence descriptor of a scheduled task (`SchedulingTrigger`) with its
mutually exclusive setters and its text rendering, the argument parsers of the
base task and of the UPS tracking task, the two dependency registrars that turn
the marker attributes on an assembly's types into service descriptors, and the
collection helpers of `ListExtensions` (ordering by keys, delimited strings,
array slicing, appending, projecting and dictionary merging).

Each source file that changes state step by step is modelled imperatively:

- the trigger setters are methods of classes whose fields they update;
- the dispatch loop, the parsers and the layout are loops over a token queue or a descriptor list;
- the registrars append to a service collection object;
- `preserveOrderOf` marks a `used` array in nested loops.

Each method is proved against a specification function on values. The
properties the program promises are lemmas about those functions.

The modules follow the source's structure:

| module | file | models |
|---|---|---|
| `Wrappers` | wrappers.dfy | `Option`, `Result`, the exceptions the code throws |
| `Text` | text.dfy | joining, ASCII case folding and trimming, the identifier rule, integer rendering, ordinal order, substring search |
| `ListExtensions` | list_extensions.dfy | `VN.Common/Extensions/ListExtensions.cs` |
| `SchedulingTriggers` | scheduling_trigger.dfy | `VN.Task.Common/SchedulingTrigger.cs` |
| `TaskCommon` | task_common.dfy | `ArgumentDescriptor`, the record of a registered task, `TaskDependencies` |
| `BaseTasks` | base_task.dfy | `VN.Task.UPStracking/BaseTask.cs` |
| `UpsTrackingTask` | ups_tracking.dfy | `VN.Task.UPStracking/UPSTracking.cs` |
| `DependencyAttributes` | dependency_attributes.dfy | the marker attributes, service descriptors, the service collection |
| `AttributesRegistration` | attributes_registration.dfy | `VN.Attributes/RegisterDependencyType.cs` |
| `DependencyInjectionRegistration` | dependency_injection_registration.dfy | `VN.DependencyInjection/RegisterDependencyType.cs` |
| `UsageLayout` | usage_layout.dfy | `FormatArgumentDescriptors` of `VN.Task.Manager/Program.cs` |
| `TaskManager` | task_manager.dfy | `Main` of `VN.Task.Manager/Program.cs` |

Where the code and its surrounding design disagree, the model follows the code:

- All three marker attributes (`Scoped`, `Singleton`, `Transient`) register with the transient lifetime.
- The `Until.Time` end of a repeating trigger is rendered with the short *date* format.
- The `/help` lookup uses `SingleOrDefault`. When two tasks match, it throws. The outer handler prints the exception's message and waits for a line of input. The exit code stays 0.
- A task whose code is not an identifier makes the host exit with -1 before any dispatch, and nothing is written.

## Model

| member | source | states |
|---|---|---|
| Text.JoinShape | src/VN.Common/Extensions/ListExtensions.cs:170-176 | n parts joined have the parts' total length plus exactly n-1 separators, start with the first part and end with the last |
| Text.JoinSnoc | src/VN.Common/Extensions/ListExtensions.cs:170-176 | appending a part adds one separator and the part: no leading or trailing separator |
| Text.NatToStringRoundTrip | src/VN.Task.Common/SchedulingTrigger.cs:273 | the decimal rendering of a count reads back as the same number |
| Text.ContainsIff | src/VN.Task.UPStracking/UPSTracking.cs:44 | `Contains` holds exactly when the substring occurs at some position |
| Text.OrdinalLeqTotal | src/VN.Task.Manager/Program.cs:142 | the order used to sort task codes relates every two codes |
| Text.OrdinalLeqTransitive | src/VN.Task.Manager/Program.cs:142 | the order used to sort task codes is transitive |
| ListExtensions.FirstUnused | src/VN.Common/Extensions/ListExtensions.cs:29-46 | the inner scan finds an unused matching element and skips only used or non-matching ones before it |
| ListExtensions.Matching | src/VN.Common/Extensions/ListExtensions.cs:22-52 | the outer scan makes one pick per key, each pick in range and marked used |
| ListExtensions.PreserveOrderOf | src/VN.Common/Extensions/ListExtensions.cs:15-65 | the nested loops over the `used` array yield what `PreserveOrder` says: the count error in ordinal mode, one slot per key in ordinal mode, picked elements then unused ones otherwise |
| ListExtensions.MatchKeys | src/VN.Common/Extensions/ListExtensions.cs:22-52 | after the outer loop the `used` array and the output are those of the specification scan |
| ListExtensions.TakeFirstUnused | src/VN.Common/Extensions/ListExtensions.cs:29-46 | the inner loop returns the earliest unused match and marks only that element |
| ListExtensions.AppendUnused | src/VN.Common/Extensions/ListExtensions.cs:56-63 | the tail loop appends the unused elements in their original order |
| ListExtensions.EmittedSnoc | src/VN.Common/Extensions/ListExtensions.cs:42-51 | each key adds its pick, or the default placeholder in ordinal mode, or nothing |
| ListExtensions.MatchingPrefix | src/VN.Common/Extensions/ListExtensions.cs:25-52 | the picks for the first k keys do not depend on the keys after them |
| ListExtensions.PickIsEarliestUnusedMatch | src/VN.Common/Extensions/ListExtensions.cs:31-45 | among duplicate keys the earliest unused element is picked; with no pick every element is used or does not match |
| ListExtensions.PicksDistinct | src/VN.Common/Extensions/ListExtensions.cs:33-39 | no element is picked twice |
| ListExtensions.UnusedMark | src/VN.Common/Extensions/ListExtensions.cs:39 | marking one unused element moves exactly that element out of the unused tail |
| ListExtensions.MatchingPartition | src/VN.Common/Extensions/ListExtensions.cs:25-63 | the picked and the unused elements together are exactly the input, as multisets |
| ListExtensions.ReorderedIsPermutation | src/VN.Common/Extensions/ListExtensions.cs:56-63 | non-ordinal mode yields a permutation of the input, of the same length |
| ListExtensions.PreserveOrderOfItems | src/VN.Common/Extensions/ListExtensions.cs:78-83 | the result is a permutation of the set |
| ListExtensions.PreserveOrderOfKeys | src/VN.Common/Extensions/ListExtensions.cs:100-105 | the result is a permutation of the set |
| ListExtensions.EquivalenceSetOrder | src/VN.Common/Extensions/ListExtensions.cs:117-122 | fails with the count message exactly when the counts differ; otherwise the ordinal-mode slots of the scan that matches elements by equal keys |
| ListExtensions.EquivalenceSetOrderKeys | src/VN.Common/Extensions/ListExtensions.cs:134-139 | fails with the count message exactly when the counts differ; otherwise the ordinal-mode slots of the scan that matches an element's key against each given key |
| ListExtensions.EquivalentSetsFilled | src/VN.Common/Extensions/ListExtensions.cs:15-65 | in ordinal mode with a key comparison, when the keys of `ordered` are the elements' keys counted with multiplicity, no slot gets the placeholder: the output is a permutation of the set and slot i holds an element with the key of `ordered[i]` |
| ListExtensions.EquivalentPrefixFilled | src/VN.Common/Extensions/ListExtensions.cs:21-38 | on equivalent sets, after the first i keys every slot so far is filled and the unused elements' keys are the set's keys less the keys handled |
| ListExtensions.EquivalenceSetOrderFilled | src/VN.Common/Extensions/ListExtensions.cs:106-122 | on equivalent sets the output succeeds, is a permutation of the set, and slot i holds an element with the same key as `ordered[i]` |
| ListExtensions.EquivalenceSetOrderKeysFilled | src/VN.Common/Extensions/ListExtensions.cs:123-139 | when the given keys are the set's keys counted with multiplicity, the output succeeds, is a permutation of the set, and slot i holds an element whose key is the i-th given key |
| ListExtensions.Map | src/VN.Common/Extensions/ListExtensions.cs:240-246 | the projection of each element, position by position |
| ListExtensions.ToDelimitedStringWith | src/VN.Common/Extensions/ListExtensions.cs:200-214 | the enumerator loop produces the converted items joined by the delimiter (a null delimiter appends nothing) |
| ListExtensions.ToDelimitedString | src/VN.Common/Extensions/ListExtensions.cs:163-179 | a null source, then a null delimiter, is refused naming the parameter; otherwise the items joined by the delimiter |
| ListExtensions.ToCommaDelimitedString | src/VN.Common/Extensions/ListExtensions.cs:187-190 | the items joined by commas, or the null-source error |
| ListExtensions.ToCommaDelimitedStringWith | src/VN.Common/Extensions/ListExtensions.cs:223-226 | the converted items joined by commas |
| ListExtensions.NullCoalesceAsEmpty | src/VN.Common/Extensions/ListExtensions.cs:234-238 | a null source becomes empty, any other is returned unchanged |
| ListExtensions.SelectAsArray | src/VN.Common/Extensions/ListExtensions.cs:240-246 | a new array holding the projection of each element |
| ListExtensions.SelectAsArrayIndexed | src/VN.Common/Extensions/ListExtensions.cs:248-254 | a new array whose k-th element is the projection of the k-th element and k |
| ListExtensions.SelectAsArrayFromCollection | src/VN.Common/Extensions/ListExtensions.cs:256-263 | a new array holding the projection of each element in enumeration order |
| ListExtensions.Slice | src/VN.Common/Extensions/ListExtensions.cs:287-308 | null gives null; a negative start fails; a zero length gives an empty array before the start is checked; a start past the end fails; a negative length counts back from the end; a length over the array's fails; a range past the end fails in the copy; otherwise exactly `arr[s..s+len]` |
| ListExtensions.SliceFrom | src/VN.Common/Extensions/ListExtensions.cs:280-285 | null gives null; a start within bounds gives the rest of the array; any other start fails |
| ListExtensions.AppendAsArray | src/VN.Common/Extensions/ListExtensions.cs:323-329 | a new array holding the source followed by the element |
| ListExtensions.AppendAsArrayFromEnumerable | src/VN.Common/Extensions/ListExtensions.cs:331-343 | a new array of the given length plus one with the source copied, the gap left default and the element last; a negative size overflows and a source too long overruns the array |
| ListExtensions.MergedLastWins | src/VN.Common/Extensions/ListExtensions.cs:148-154 | after merging, a key of the items maps to its last value in them; every other key is untouched |
| ListExtensions.Dictionary.MergeFrom | src/VN.Common/Extensions/ListExtensions.cs:148-154 | the dictionary is updated in place, item by item, to the merged map |
| SchedulingTriggers.WithDayOfMonth | src/VN.Task.Common/SchedulingTrigger.cs:209-221 | setting a day of the month fails exactly when a value is given while the day of the week is set; otherwise only that field changes and exclusivity is kept |
| SchedulingTriggers.WithDayOfWeek | src/VN.Task.Common/SchedulingTrigger.cs:231-243 | setting a day of the week fails exactly when a value is given while the day of the month is set; otherwise only that field changes and exclusivity is kept |
| SchedulingTriggers.MonthlyTrigger.constructor | src/VN.Task.Common/SchedulingTrigger.cs:200-224 | a new monthly trigger has neither day set |
| SchedulingTriggers.MonthlyTrigger.SetDayOfMonth | src/VN.Task.Common/SchedulingTrigger.cs:209-221 | the setter throws and changes nothing, or stores the value; the invariant is kept |
| SchedulingTriggers.MonthlyTrigger.SetDayOfWeek | src/VN.Task.Common/SchedulingTrigger.cs:231-243 | the setter throws and changes nothing, or stores the value; the invariant is kept |
| SchedulingTriggers.WithDaily | src/VN.Task.Common/SchedulingTrigger.cs:79-92 | setting `Daily` fails exactly when a value is given while `Weekly` or `Monthly` is set; null always succeeds; only `Daily` changes |
| SchedulingTriggers.WithWeekly | src/VN.Task.Common/SchedulingTrigger.cs:102-115 | setting `Weekly` fails exactly when a value is given while `Daily` or `Monthly` is set; null always succeeds; only `Weekly` changes |
| SchedulingTriggers.WithMonthly | src/VN.Task.Common/SchedulingTrigger.cs:125-138 | setting `Monthly` fails exactly when a value is given while `Daily` or `Weekly` is set; null always succeeds; only `Monthly` changes |
| SchedulingTriggers.SettersKeepExclusive | src/VN.Task.Common/SchedulingTrigger.cs:76-139 | any sequence of setter calls, failing or not, keeps at most one of the three recurrences set |
| SchedulingTriggers.SchedulingTrigger.constructor | src/VN.Task.Common/SchedulingTrigger.cs:48-76 | a new trigger has no recurrence set and satisfies the invariant |
| SchedulingTriggers.SchedulingTrigger.SetDaily | src/VN.Task.Common/SchedulingTrigger.cs:79-92 | the setter throws and changes nothing, or stores the value; the invariant is kept |
| SchedulingTriggers.SchedulingTrigger.SetWeekly | src/VN.Task.Common/SchedulingTrigger.cs:102-115 | the setter throws and changes nothing, or stores the value; the invariant is kept |
| SchedulingTriggers.SchedulingTrigger.SetMonthly | src/VN.Task.Common/SchedulingTrigger.cs:125-138 | the setter throws and changes nothing, or stores the value; the invariant is kept |
| SchedulingTriggers.SchedulingTrigger.ToString | src/VN.Task.Common/SchedulingTrigger.cs:266-368 | the string builder produces the description `Describe` defines, or the exception it throws |
| SchedulingTriggers.SchedulingTrigger.AppendHeadline | src/VN.Task.Common/SchedulingTrigger.cs:269-330 | appends the recurrence headline, or fails when no recurrence can be described |
| SchedulingTriggers.SchedulingTrigger.AppendRepeat | src/VN.Task.Common/SchedulingTrigger.cs:335-367 | appends the repetition part, or fails on an `Until` with neither end set |
| SchedulingTriggers.WeeklyText | src/VN.Task.Common/SchedulingTrigger.cs:277-300 | the weekly headline, failing on an empty day list |
| SchedulingTriggers.ListDays | src/VN.Task.Common/SchedulingTrigger.cs:282-289 | the seven flag tests collect the names of the set days in listing order |
| SchedulingTriggers.AddDayIfSet | src/VN.Task.Common/SchedulingTrigger.cs:283-289 | one flag test adds the day's name exactly when its flag is set |
| SchedulingTriggers.ListingDay | src/VN.Task.Common/SchedulingTrigger.cs:283-289 | the k-th day tested has rank k in the listing order Monday to Sunday |
| SchedulingTriggers.ListingStep | src/VN.Task.Common/SchedulingTrigger.cs:283-289 | each flag test extends the list exactly when the flag is set |
| SchedulingTriggers.SelectDaysMembers | src/VN.Task.Common/SchedulingTrigger.cs:283-289 | after k tests the list holds exactly the set days among the first k |
| SchedulingTriggers.DayOfRank | src/VN.Task.Common/SchedulingTrigger.cs:283-289 | every day is tested once, at its rank |
| SchedulingTriggers.SelectDaysOrdered | src/VN.Task.Common/SchedulingTrigger.cs:283-289 | the list is strictly in listing order, hence without repeats |
| SchedulingTriggers.WeeklyDaysSpec | src/VN.Task.Common/SchedulingTrigger.cs:282-289 | a day is listed exactly when its flag is set, in the order Monday to Saturday, then Sunday |
| SchedulingTriggers.SelectDaysIgnoreOtherBits | src/VN.Task.Common/SchedulingTrigger.cs:283-289 | bits other than the seven day flags do not change the list |
| SchedulingTriggers.DayListWording | src/VN.Task.Common/SchedulingTrigger.cs:291-300 | no day fails, one day is "X", two are "X and Y", three or more are "X, Y, and Z" |
| SchedulingTriggers.DescribeFailsIff | src/VN.Task.Common/SchedulingTrigger.cs:266-368 | rendering fails exactly when no recurrence is set, the weekly day set is empty, a monthly trigger has neither day, or a repeating trigger's `Until` has neither end |
| SchedulingTriggers.WeeklyFailsIff | src/VN.Task.Common/SchedulingTrigger.cs:291-300 | the weekly headline fails exactly when no day flag is set |
| SchedulingTriggers.DescribeShape | src/VN.Task.Common/SchedulingTrigger.cs:266-368 | a rendering starts with "Run " and then the headline, followed by the start date and time |
| SchedulingTriggers.HeadlineStartsWithRun | src/VN.Task.Common/SchedulingTrigger.cs:269-326 | every headline starts with "Run " |
| SchedulingTriggers.NoRepeatEndsAtStart | src/VN.Task.Common/SchedulingTrigger.cs:332-335 | without repetition nothing follows the start date and time |
| SchedulingTriggers.RepeatTail | src/VN.Task.Common/SchedulingTrigger.cs:336-367 | with no `Until` the text ends after the `Every` part; a duration takes precedence over an end time |
| SchedulingTriggers.EveryNWording | src/VN.Task.Common/SchedulingTrigger.cs:271-279 | one day or week is exactly "Run every day"/"Run every week"; any other count is exactly "Run every N days"/"Run every N weeks"; the text ends in "s" exactly when the count is not 1 |
| SchedulingTriggers.EveryPartWording | src/VN.Task.Common/SchedulingTrigger.cs:339-348 | a count of one is exactly ", repeating every minute"/", repeating every hour"; any other count is exactly ", repeating every N minutes"/", repeating every N hours"; the text ends in "s" exactly when the count is not 1 |
| TaskCommon.Described | src/VN.Task.Common/ArgumentDescriptor.cs:35-39 | a descriptor with no post-argument syntax |
| TaskCommon.DescribedWith | src/VN.Task.Common/ArgumentDescriptor.cs:47-52 | a descriptor with all three parts as given |
| TaskCommon.NewTaskDependencies | src/VN.Task.Common/TaskDependencies.cs:15-20 | a null reporter is refused naming the parameter; any other is kept |
| BaseTasks.DefaultArgumentDescriptors | src/VN.Task.UPStracking/BaseTask.cs:27-31 | exactly `/test`, then `/date <mm/dd/yyyy>`, both described |
| BaseTasks.SwitchMatch | src/VN.Task.UPStracking/BaseTask.cs:54-59 | switches are recognised ignoring case and surrounding white space |
| BaseTasks.SwitchesDistinct | src/VN.Task.UPStracking/BaseTask.cs:54-59 | no token is both `/test` and `/date` |
| BaseTasks.BaseTask.constructor | src/VN.Task.UPStracking/BaseTask.cs:13-26 | its task code is the constructor's argument; a single instance only; no dependencies yet |
| BaseTasks.BaseTask.ProvideDependencies | src/VN.Task.UPStracking/BaseTask.cs:41-44 | the bundle is stored |
| BaseTasks.BaseTask.ParseArguments | src/VN.Task.UPStracking/BaseTask.cs:46-84 | the dequeue loop returns what `Parse` defines on the tokens |
| BaseTasks.BaseTask.ScheduleTriggers | src/VN.Task.UPStracking/BaseTask.cs:33-39 | exactly one new trigger, the default schedule, built without a setter failing |
| BaseTasks.DefaultSchedule | src/VN.Task.UPStracking/BaseTask.cs:33-39 | the default schedule sets only `Daily` |
| BaseTasks.SkipNonDate | src/VN.Task.UPStracking/BaseTask.cs:50-83 | tokens other than `/date` are passed over without effect |
| BaseTasks.NoDateAccepted | src/VN.Task.UPStracking/BaseTask.cs:50-83 | any token list without `/date` is accepted |
| BaseTasks.DateLastRejected | src/VN.Task.UPStracking/BaseTask.cs:59-65 | `/date` as the last token is rejected |
| BaseTasks.DateConsumesValue | src/VN.Task.UPStracking/BaseTask.cs:67-79 | the token after `/date` is always its value, even one that looks like a switch |
| BaseTasks.UnparsableDateRejected | src/VN.Task.UPStracking/BaseTask.cs:67-79 | a value that does not parse as a date is rejected |
| BaseTasks.DateSwitchAnyCase | src/VN.Task.UPStracking/BaseTask.cs:59 | `/DATE` and `/Date` are the date switch |
| BaseTasks.DateSwitchPadded | src/VN.Task.UPStracking/BaseTask.cs:59 | surrounding white space is ignored |
| BaseTasks.DateSwitchWholeToken | src/VN.Task.UPStracking/BaseTask.cs:59 | the switch must be the whole token: `/dates` is not it |
| BaseTasks.DefaultScheduleText | src/VN.Task.UPStracking/BaseTask.cs:33-39 | the default schedule reads "Run every day, starting on … at …, repeating every 5 minutes" |
| BaseTasks.DefaultScheduleParts | src/VN.Task.UPStracking/BaseTask.cs:33-39 | its headline is "Run every day" and its repetition ", repeating every 5 minutes" |
| UpsTrackingTask.ArgumentDescriptors | src/VN.Task.UPStracking/UPSTracking.cs:28-36 | exactly one descriptor, `/filename <filename>`, described |
| UpsTrackingTask.UpsTracking.constructor | src/VN.Task.UPStracking/UPSTracking.cs:14-16 | the base task is built with the tracing category as its code |
| UpsTrackingTask.UpsTracking.ParseArguments | src/VN.Task.UPStracking/UPSTracking.cs:38-58 | the dequeue loop returns what `Parse` defines on the tokens |
| UpsTrackingTask.UpsTracking.Run | src/VN.Task.UPStracking/UPSTracking.cs:23-26 | running always throws "not implemented" |
| UpsTrackingTask.ParseIff | src/VN.Task.UPStracking/UPSTracking.cs:40-55 | accepted exactly when the first token naming the file is not the last token; later tokens are not examined |
| UpsTrackingTask.NoFileRejected | src/VN.Task.UPStracking/UPSTracking.cs:40-55 | without a token naming the file (including no tokens at all) the arguments are rejected |
| UpsTrackingTask.FilenameRecognition | src/VN.Task.UPStracking/UPSTracking.cs:44 | recognition is case-sensitive containment: "x/filenames" counts, "/FILENAME" does not |
| UpsTrackingTask.TaskCodeIsIdentifier | src/VN.Task.UPStracking/UPSTracking.cs:19 | its task code passes the identifier rule |
| DependencyAttributes.MarkerLifetime | src/VN.Attributes/ScopedDependencyAttribute.cs:7 | every marker, whatever its name, registers with the transient lifetime |
| DependencyAttributes.BuildServiceDescriptor | src/VN.Attributes/RegisterDependencyType.cs:20 | a descriptor for the attribute's service type, implemented by the type, transient |
| DependencyAttributes.Descriptors | src/VN.Attributes/RegisterDependencyType.cs:18-23 | one descriptor per attribute of the type, in attribute order |
| DependencyAttributes.ServiceCollection.Add | src/VN.Attributes/RegisterDependencyType.cs:22 | adding appends one descriptor and keeps the others |
| DependencyAttributes.AddDescriptors | src/VN.Attributes/RegisterDependencyType.cs:18-23 | appends the type's descriptors after the existing ones |
| AttributesRegistration.RegisterAssembly | src/VN.Attributes/RegisterDependencyType.cs:10-25 | every defined type's descriptors are appended, type after type; existing entries are kept |
| AttributesRegistration.AllRegistrationsAppend | src/VN.Attributes/RegisterDependencyType.cs:16-23 | registering two runs of types is the first run's descriptors followed by the second's |
| AttributesRegistration.AllRegistrationsCount | src/VN.Attributes/RegisterDependencyType.cs:18-23 | exactly one descriptor per attribute over all types |
| AttributesRegistration.AllRegistrationsMembers | src/VN.Attributes/RegisterDependencyType.cs:16-23 | a descriptor is registered exactly when some attribute of some type builds it: there is no filter |
| AttributesRegistration.AllRegistrationsTransient | src/VN.Attributes/RegisterDependencyType.cs:20-22 | every registered descriptor is transient |
| DependencyInjectionRegistration.Qualifying | src/VN.DependencyInjection/RegisterDependencyType.cs:41-44 | the filter keeps only types implementing the named interface |
| DependencyInjectionRegistration.RegisterDependencyType.constructor | src/VN.DependencyInjection/RegisterDependencyType.cs:15-20 | the registrar keeps its interface name and loader |
| DependencyInjectionRegistration.RegisterDependencyType.RegisterAssembly | src/VN.DependencyInjection/RegisterDependencyType.cs:36-54 | the qualifying types' descriptors are appended in type order; existing entries are kept |
| DependencyInjectionRegistration.RegisterDependencyType.RegisterAllAssemblies | src/VN.DependencyInjection/RegisterDependencyType.cs:22-29 | the assemblies' registrations are appended one assembly after another |
| DependencyInjectionRegistration.RegistrationsAreFilteredAll | src/VN.DependencyInjection/RegisterDependencyType.cs:41-52 | filtering by interface, then registering every type, is what this registrar does |
| DependencyInjectionRegistration.RegistrationsCount | src/VN.DependencyInjection/RegisterDependencyType.cs:46-52 | exactly one descriptor per attribute of each qualifying type |
| DependencyInjectionRegistration.RegistrationsAppend | src/VN.DependencyInjection/RegisterDependencyType.cs:41-52 | descriptors follow type order |
| DependencyInjectionRegistration.NonQualifyingIgnored | src/VN.DependencyInjection/RegisterDependencyType.cs:43-44 | a type without the interface contributes nothing, wherever it stands |
| DependencyInjectionRegistration.QualifyingContributes | src/VN.DependencyInjection/RegisterDependencyType.cs:46-52 | a qualifying type contributes exactly its descriptors, in attribute order, in its place |
| DependencyInjectionRegistration.QualifiesIgnoresCase | src/VN.DependencyInjection/RegisterDependencyType.cs:43 | the interface name is matched ignoring case |
| DependencyInjectionRegistration.AllAssembliesAppend | src/VN.DependencyInjection/RegisterDependencyType.cs:22-29 | registering two lists of assemblies is the first list's descriptors followed by the second's |
| DependencyInjectionRegistration.RegisteredTwice | src/VN.DependencyInjection/RegisterDependencyType.cs:51 | the same assembly registered twice yields its descriptors twice: nothing is de-duplicated |
| UsageLayout.DescStart | src/VN.Task.Manager/Program.cs:178 | descriptions start at two sevenths of the width, rounded down, within the window |
| UsageLayout.FormatArgumentDescriptors | src/VN.Task.Manager/Program.cs:173-221 | the loop builds the table `Layout` defines, one entry per descriptor in order |
| UsageLayout.AppendEntry | src/VN.Task.Manager/Program.cs:181-218 | one iteration appends exactly the entry of its descriptor |
| UsageLayout.HeadLength | src/VN.Task.Manager/Program.cs:183-193 | the running line length is the length of the switch text written: 2 + the switch, plus 1 + the post-arguments when present |
| UsageLayout.EntryColumns | src/VN.Task.Manager/Program.cs:195-217 | a description starts at column descstart, on the switch's line when it fits, else on the next line after descstart spaces; without a description the entry is the switch line |
| TaskManager.CommandMatch | src/VN.Task.Manager/Program.cs:90-153 | commands are recognised ignoring case |
| TaskManager.ProcessCommandLine | src/VN.Task.Manager/Program.cs:58-158 | the checks and the dequeue loop produce the exit code and console output `Host` defines |
| TaskManager.ShowHelp | src/VN.Task.Manager/Program.cs:101-135 | the `/help <code>` branch produces what `HelpFor` defines |
| TaskManager.WriteHelp | src/VN.Task.Manager/Program.cs:114-132 | the help lines of one task, in order |
| TaskManager.ListTasks | src/VN.Task.Manager/Program.cs:140-151 | the heading, then three lines per task in code order |
| TaskManager.InsertAdds | src/VN.Task.Manager/Program.cs:142 | inserting adds exactly the one task |
| TaskManager.InsertSorted | src/VN.Task.Manager/Program.cs:142 | inserting into an ordered list keeps it ordered |
| TaskManager.OrderByCodeSorted | src/VN.Task.Manager/Program.cs:142 | the listing order is sorted by code and a permutation of the registered tasks |
| TaskManager.EntriesAt | src/VN.Task.Manager/Program.cs:142-150 | the i-th task's three lines stand at positions 3i to 3i+2 |
| TaskManager.ListingShape | src/VN.Task.Manager/Program.cs:140-150 | `/list` writes the heading and exactly one entry per registered task, in code order |
| TaskManager.MatchesMembers | src/VN.Task.Manager/Program.cs:103-104 | a task matches exactly when it is registered and its code equals the argument ignoring case and surrounding white space |
| TaskManager.MatchesIgnoreCaseAndPadding | src/VN.Task.Manager/Program.cs:103-104 | codes equal up to case and padding find the same tasks |
| TaskManager.HelpOutcomes | src/VN.Task.Manager/Program.cs:103-135 | no match writes the error line and exits -1; several matches print the exception message and wait for input; one match writes twelve help lines for that task and exits 0 |
| TaskManager.SkipTokens | src/VN.Task.Manager/Program.cs:87-158 | tokens other than `/help` and `/list` (including `/run`) are passed over |
| TaskManager.NoCommandExitsZero | src/VN.Task.Manager/Program.cs:87-158 | when the queue empties without `/help` or `/list`, the exit code stays 0 and nothing is written |
| TaskManager.TrailingHelpShowsUsage | src/VN.Task.Manager/Program.cs:93-98 | `/help` as the last token shows the usage text and exits -1 |
| TaskManager.FirstCommandWins | src/VN.Task.Manager/Program.cs:87-158 | the first `/help` or `/list` decides the outcome; later tokens are ignored |
| TaskManager.ExitCodes | src/VN.Task.Manager/Program.cs:58-166 | the exit code is 0 or -1; no arguments shows usage and exits -1; a task code that is not an identifier exits -1 with nothing written |
| TaskManager.DispatchExitCodes | src/VN.Task.Manager/Program.cs:87-158 | the dispatch loop ends with exit code 0 or -1 |

## Left out

- `BackgroundEnumerate` in `ListExtensions.cs` runs on a thread-pool thread and signals an event: concurrency is not modelled.
- `AddAllWhere`, `SelectAsList`, `DistinctListOf`, `ToArray` and `ToList` in `ListExtensions.cs` are thin calls into the .NET collection library, which is not part of this model.
- ListExtensions.PreserveOrderOf: the source yields lazily. The model produces the whole output at once, so it does not capture when the count check throws (on first enumeration) or interleaving with the caller.
- ListExtensions.ToDelimitedStringWith: the source dereferences a null source and throws `NullReferenceException`. The model takes a non-null sequence.
- `ToString()` of the items in `ToDelimitedString` is a parameter.
- ListExtensions.SelectAsArray, ListExtensions.SelectAsArrayIndexed, ListExtensions.SelectAsArrayFromCollection, ListExtensions.AppendAsArray, ListExtensions.AppendAsArrayFromEnumerable, ListExtensions.Dictionary.MergeFrom: a null array, collection, source, dictionary or item sequence throws `NullReferenceException` in the source (ListExtensions.cs:242, 250, 258, 325, 334, 150). The model's parameters are non-null, so that exception is not modelled.
- ListExtensions.Dictionary.MergeFrom: the dictionary is a map in a class field. Reference aliasing of the caller's dictionary and the order of its enumeration are not modelled.
- Strings are sequences of characters. Case folding and white space cover ASCII only, and culture-sensitive comparison is not modelled.
- `OrderBy` on task codes uses the culture's string comparer. The model sorts stably by ordinal (character code) order.
- `CaseInsensitiveEquals`, `CaseInsensitiveTrimmedEquals`, `IsIdentifier` and `WordWrap` are extension methods that are not part of this model:
  - the first three are defined in the module `Text`, following the identifier rule of `IScheduledTask.cs`;
  - `WordWrap` is a function parameter.
- Several .NET facilities are parameters: `DateTime.Today`, `DateTime.TryParse`, `ToShortDateString`, `ToShortTimeString` and the rendering of a `TimeSpan`.
- The console is modelled as a list of events. The general usage text (`DisplayUsageText`) is a single `Usage` event, since it only writes fixed lines.
- The window width is a parameter. The fallback to 80 columns when the width cannot be read is not modelled.
- Several parts of the host's startup are not part of this model:
  - configuration;
  - dependency-injection container construction (`Startup`);
  - the assembly directory loaders;
  - reflection.

  In their place, the registered tasks are given as a list of records, and each assembly is a record of its types, with their interface names and marker attributes.
- `GetInterface` throws when several interfaces match the name ignoring case. This is not modelled; any match qualifies.
- The string and `AssemblyName` overloads of `RegisterAssembly` are merged into one that takes the name.
- The body of `BuiildServiceDescriptor` is not part of this model. A descriptor is the triple of service type, implementation type and lifetime.
- `/run` is not implemented in the source: its branch is empty. The single-instance mutex and the run exit codes therefore do not occur.
- `Log`, `LogException` and `EnableTestMode` of the base task are empty and are not modelled.
- `BaseSingleThreadedTask`, the parent class of `UpsTracking`, is not part of this model. `UpsTracking` holds its `BaseTask` state in a `base` field.
- `MonthlyTrigger` and the other trigger records are C# structs with copy semantics. `MonthlyTrigger`, whose setters update its fields, is a class here, and copying it is not modelled.
- Integers are unbounded: `EveryNDays`, `EveryNWeeks` and the other counts have no 32-bit limit. The source never does arithmetic on them, so this changes no result.
- The length arithmetic in `Slice` and `AppendAsArray` is done on unbounded integers. A 32-bit overflow there is not modelled.
