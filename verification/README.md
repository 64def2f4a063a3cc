# A verified model of UPower

UPower is the daemon that tells a desktop how its batteries are doing. This project models the parts
of it that hold logic and proves what they are for:

- **History** (`DecimalText`, `DecimalLaws`, `HistoryItem`, `HistoryFile`, `HistoryQuery`,
  `HistoryProfile`, `ProfileLaws`, `HistoryStore`): samples are recorded, saved in batches, printed and parsed, culled by age, read back
  through a window, reduced to a number of points, and turned into a charge profile.
- **Battery refresh** (`RateEstimator`, `SupplyRefresh`, `SupplyLaws`, `UnknownPoll`): a ring of past
  energies gives a least-squares rate, a voltage gives a percentage, and an unknown state is looked at
  again.
- **Daemon** (`PollRegistry`, `Suspend`, `WarningLevel`, `CriticalAction`, `DisplayBattery`,
  `DisplayLaws`, `DeviceIndex`, `DeviceEvents`, `DeviceReplay`): polled devices, the handshake around a suspend, warning levels and the
  delayed critical action, the composite battery, and the list of devices with the signals about it.
- **Property notification** (`Notification`): changes of properties are collected and announced once.
- **HID++** (`HidppMatching`, `HidppDevice`, `HidppLaws`): requests and responses that share one buffer, and the
  refresh on top of them.
- **Lid input** (`InputBitmap`, `InputEvents`): events put together from fragments, and the bitmap of
  switches.

The code works by changing objects step by step, so each object is a class whose methods change its
fields. Most methods are proved against a function on values (`Step`, `Limited`, `Composite`,
`Refreshed`, ...) that says what the new state is, and the properties of calls, of whole runs and of
pairs of operations are lemmas about those functions. The handlers of `Suspend` and the sections of
`HidppDevice` keep a ghost history of their single actions and requests, and promise what that history
is; the lemmas are about histories. The modules named `Laws` say what those functions give without using
how they are written: by sums, inequalities, bytes and the past of a run. Comments that say "the environment" mark fields
that stand for what GLib, the kernel or another process keeps: live timers, connected handlers,
reference counts, files, messages still to arrive.

`HistoryItem`, `UpTypes`, `Doubles`, `Wrappers` and `DecimalText` are used by several components.

## What the code does that its comments do not say

Where the code and its comments disagree the model follows the code. These are theorems below:

- A policy with `TimeAction=0` is accepted, and then no remaining time ever reaches the ACTION level
  (`WarningLevel.TimeBandsAreReached`).
- Leaving the ACTION level before the action is taken removes the timer and keeps its id, so no action
  is ever taken again (`CriticalAction.StuckExactlyWhenCancelled`).
- Of batteries that wait for charge or are full, the first one in the list decides the composite state,
  whatever the comment says (`DisplayBattery.PendingDependsOnOrder`). Two or more batteries in front of a
  UPS make the daemon recompute the percentage of the UPS (`DisplayBattery.UpsReplacesBatteries`).
- A read of the history without a time limit is not reversed. The unsigned difference of its times
  wraps, so the number of points that is asked for only decides between the array as it is and one
  point for each run of states (`HistoryQuery.UnlimitedReadIsNotReversed`). A window never contains the
  oldest entry.
- A battery that is not calibrated and has one voltage for empty, full and now has a percentage of 0/0,
  and below 0.1 Wh an energy that is not a number, from which later rates are computed
  (`SupplyRefresh.FlatBatteryHasNoPercentage`, `RateEstimator.RateStaysInRange`). All published values
  are always numbers within their limits if and only if no reading is of that kind
  (`SupplyRefresh.RunStaysInRange`).
- A profile whose samples took no time has bins that are not a number (`HistoryProfile.ProfileShape`).
- A client that reads the properties while a change is pending keeps a wrong value if the change is
  undone before the signal (`Notification.LateReaderMissesUndoneChange`).
- A device whose export failed hides the exported ones behind it from `EnumerateDevices`
  (`DeviceEvents.ReplayMatchesEnumeration`) and keeps one reference after its removal.
- A HID++ message that is too short to have a header can pass for the response to the request whose
  bytes are still in the buffer (`HidppMatching.ShortMessagePassesForResponse`).
- After a request the refresh looks at the buffer, not at the outcome, so the last message heard decides,
  whichever device it is about. A ping fails if and only if it is not answered and that message is neither
  of two errors (`HidppDevice.PingFailsExactly`). A refresh returns TRUE if and only if all its turns are
  well or that message is one of a device out of reach (`HidppDevice.RefreshOutcomeExactly`), also when a
  request for the serial number had no answer (`HidppDevice.SerialTimeoutReturnsTrue`), and crashes when
  both are so (`HidppDevice.ErrorNumberedFeatureCrashes`).
- A discharging battery that is judged by a percentage that is not a number has the level ACTION
  (`WarningLevel.ActionExactly`), and a display device with such a value is shown again at every update
  (`DisplayBattery.SameAsItself`).
- A client misses what is announced while the interface is off the bus
  (`Notification.ReturnSyncsExactly`).
- Several batteries whose full energies are not known are shown with the sum of their percentages
  (`DisplayBattery.PercentageIsAtMost100`).
- Refreshes of an unknown battery that are no more than a second apart are not counted, so they are not
  limited to five (`UnknownPoll.QuickPollingNeverEnds`).

## Model

| member | source | states |
|---|---|---|
| UpTypes.StateRoundTrip | libupower-glib/up-types.c:128-177 | A state's name parses back to the state, no other text does, and any other text gives UNKNOWN |
| DecimalText.UInt32RoundTrip | libupower-glib/up-history-item.c:185-231 | Every 32-bit time survives `%i` and `atoi`, also above 2^31 where it is printed as a negative number |
| DecimalText.MilliRoundTrip | libupower-glib/up-history-item.c:185-231 | A value printed with `%.3f` and parsed again is the value rounded to thousandths, with its sign |
| DecimalText.RoundedIsFixed | libupower-glib/up-history-item.c:185-198 | A value that was rounded to three decimals prints the same and is not changed by another round trip |
| DecimalLaws.SignedText | libupower-glib/up-history-item.c:200-231 | The scanners skip all spaces in front of a number and take one sign |
| DecimalLaws.ParseUInt32OfText | libupower-glib/up-history-item.c:200-231 | `atoi` on any digits, behind spaces and a sign, whatever follows: the value saturates at 64 bits and is reduced to 32 |
| DecimalLaws.ParseDoubleOfText | libupower-glib/up-history-item.c:200-231 | `atof` on any digits with a point, up to a space: the digits together, moved right by the number of those behind the point |
| DecimalLaws.ScaledBack | libupower-glib/up-history-item.c:200-231 | Moving the point left is a division by ten for each place |
| DecimalLaws.DigitsValueOfConcat | libupower-glib/up-history-item.c:200-231 | Digits count by their place: those in front of k others count 10^k times as much |
| DecimalLaws.DigitsInOrder | libupower-glib/up-history-item.c:200-231 | The digits 0 to 9 have the values 0 to 9 |
| HistoryItem.ItemRoundTrip | libupower-glib/up-history-item.c:185-231 | Parsing a printed sample gives its time, its state, and its value to three decimals |
| HistoryItem.PrintedLineIsPlain | libupower-glib/up-history-item.c:185-198 | A printed sample never contains a newline, so a file has one line for each sample |
| HistoryItem.StoredIsFixed | libupower-glib/up-history-item.c:185-231 | A sample that went through a file prints the same text and goes through unchanged from then on |
| HistoryItem.LineOfFile | libupower-glib/up-history-item.c:185-198 | The line of a discharging sample of 99.5 at time 1000, character for character |
| HistoryFile.ArrayToFile | src/up-history.c:427-485 | The file has the printed samples that are not too old, in order, each on a line |
| HistoryFile.ArrayFromFile | src/up-history.c:494-543 | The samples of the terminated lines that parse are appended; a missing file changes nothing; the result is FALSE exactly when the last line does not parse |
| HistoryFile.LinesFromFile | src/up-history.c:512-530 | The loop appends the samples of the lines in order, and its flag reports on the last line |
| HistoryFile.CulledMembers | src/up-history.c:445-457 | A save keeps exactly the samples that are not older than the age limit |
| HistoryFile.CulledOfConcat | src/up-history.c:445-457 | Culling keeps the order: what is kept of two parts is what is kept of each |
| HistoryFile.SavedLineByLine | src/up-history.c:427-485 | The terminated lines of a file are the printed samples that were young enough, one for one |
| HistoryFile.LoadedOfPrinted | src/up-history.c:494-543 | Reading the printed lines of any samples gives those samples, to three decimals, in order |
| HistoryFile.LinesOfUnlines | src/up-history.c:512-530 | Splitting at newlines gives back the lines, and the empty text behind the last newline is not one |
| HistoryFile.RestartRoundTrip | src/up-history.c:427-543 | What is read back after a save is exactly the samples not too old, to three decimals, in order, also when none is left |
| HistoryFile.SaveIsIdempotent | src/up-history.c:427-543 | Saving what was read back at the same instant and age limit writes the same file |
| HistoryFile.DamagedLineIsLocal | src/up-history.c:519-530 | A line that does not parse, the first or a later one, takes nothing from the lines before and behind it |
| HistoryQuery.LimitResolution | src/up-history.c:117-199 | The loop computes the mean points of the groups that the scan forms, or returns the array when it has fewer items than points are wanted |
| HistoryQuery.GroupsPartition | src/up-history.c:117-199 | The groups are consecutive, not empty, and cover the input; the first carries UNKNOWN, each other one the one state that all its items have |
| HistoryQuery.GroupsFollowTimeAndState | src/up-history.c:141-184 | For any data and a resolution above 0: an item of the k-th group, but for its first, lies in the first k + 1 parts of the time from the last to the first item, and a group ends only where the state changes or the next item lies in a later part |
| HistoryQuery.LimitedExactly | src/up-history.c:128-199 | Fewer items than points are kept as they are; others give one mean point for each group |
| HistoryQuery.MeanIsMean | src/up-history.c:160-169 | The time of a point is the mean of its group rounded down, its value the mean, its state the group's |
| HistoryQuery.SumsAreAdditive | src/up-history.c:170-180 | The sums of a group are those of its parts, down to single items |
| HistoryQuery.MeanWithinGroup | src/up-history.c:160-169 | The time and the value of a point lie within the range of its group |
| HistoryQuery.ValueIsConserved | src/up-history.c:117-199 | The values of the points, each weighted with the size of its group, sum to the sum of the input |
| HistoryQuery.LimitedSize | src/up-history.c:154-184 | Newest-first input gives at most max(2, resolution) points and one for each change of state |
| HistoryQuery.LimitedOrder | src/up-history.c:154-199 | Newest-first input gives points that are newest first and within the input's times |
| HistoryQuery.CopyArrayTimespan | src/up-history.c:204-236 | The entries of the window from the end of the array, all but entry 0; no array for an empty one; the array itself for timespan 0 |
| HistoryQuery.WindowExactly | src/up-history.c:204-236 | For any data: no window of an empty array, all of it for timespan 0, else the items behind the first that are younger than 95 percent of the timespan, the latest first |
| HistoryQuery.LatestComesFirst | src/up-history.c:224-234 | Any item is in a window by its own age alone, in front of those that were recorded before it |
| HistoryQuery.InWindowExactly | src/up-history.c:221-228 | The window is 95 percent of the timespan in whole seconds |
| HistoryQuery.RecentIsReversedSuffix | src/up-history.c:224-234 | The window of time-ordered data is the array read from its end up to the first entry outside |
| HistoryQuery.WindowRead | src/up-history.c:204-276 | A windowed read of time-ordered data is newest first, inside the window, and of bounded size |
| HistoryQuery.GroupsAreRuns | src/up-history.c:150-184 | Oldest-first data is divided into its runs of one state, whatever the resolution is, and there is one more of them than switches of state |
| HistoryQuery.UnlimitedReadIsNotReversed | src/up-history.c:117-219 | A read with timespan 0 gives the array if it has fewer entries than points are asked for, else one point for each run; it is oldest first, and newest first if and only if the first and the last entry have the same time, or the first and the last run the same mean time |
| HistoryProfile.ClampAccuracy | libupower-glib/up-stats-item.c:94-106 | An accuracy within 0 and 100 stays, a lower one becomes 0 and a higher one 100 |
| HistoryProfile.AddSample | src/up-history.c:330-345 | A step adds its seconds and one to its bin, if its state is the one that is asked for |
| HistoryProfile.CollectSamples | src/up-history.c:308-352 | The loop tallies the steps that the walk over the history finds |
| HistoryProfile.AverageBins | src/up-history.c:354-360 | Each bin with samples becomes its seconds for each (counted) sample |
| HistoryProfile.FindAverage | src/up-history.c:362-373 | The average of the bins with samples, or 0 when there are none |
| HistoryProfile.NormaliseBins | src/up-history.c:375-388 | Each bin with samples becomes its relative distance from the average, the others 0, and the counter the accuracy |
| HistoryProfile.GetProfileData | src/up-history.c:281-392 | The result is the normalised profile of the tallied steps |
| HistoryProfile.SamplesAreDisjoint | src/up-history.c:308-352 | The steps do not overlap and each lies within one run of entries of the same state |
| ProfileLaws.StepsExactly | src/up-history.c:308-352 | For any history: the steps are exactly those from one change of the bin to the next in the same state that move by a hundredth to three percent and do not begin at a change that was dropped for not doing so |
| ProfileLaws.StepIsWithinState | src/up-history.c:308-352 | A step lies in one state, behind its first entry, and the bin stays the same up to the step's end |
| ProfileLaws.NearestBin | src/up-history.c:316-322 | The bin of a percentage is the nearest one, the even one of two, and the last one for all above |
| ProfileLaws.TalliedExactly | src/up-history.c:338-345 | Each bin of the charging profile counts exactly the steps that end in it in the state CHARGING, with their seconds, and the other profile those in DISCHARGING |
| ProfileLaws.OtherStatesAreNotProfiled | src/up-history.c:341-342 | A history that never charges has an empty charging profile, and one that never discharges an empty discharging profile |
| ProfileLaws.OwnStateIsProfiled | src/up-history.c:338-345 | A history that only charges has all the seconds of its steps in the charging profile, and likewise for discharging |
| HistoryProfile.TalliedSum | src/up-history.c:330-345 | The seconds in the bins of both profiles are at most those of all the steps |
| HistoryProfile.ProfileTimeIsConserved | src/up-history.c:308-352 | For time-ordered data the seconds in all bins of both profiles never exceed the time that the history spans |
| HistoryProfile.ProfileShape | src/up-history.c:354-391 | 101 bins; empty bins are 0; accuracy is min(100, 20 for each sample) although the counter is clamped; NaN exactly in sampled bins of a profile whose seconds sum to 0 |
| HistoryProfile.ValuesAreBalanced | src/up-history.c:362-388 | With a positive average the values sum to 0 and none is below -1 |
| ProfileLaws.ValuesAreRelative | src/up-history.c:354-388 | A bin's seconds for each step are the average over the sampled bins raised by the bin's value |
| HistoryProfile.AverageIsZero | src/up-history.c:362-373 | The average of bins that are not negative is 0 exactly when all of them are |
| HistoryStore.LoadArray | src/up-history.c:665-702 | A series is what it had, then the file's samples, then one UNKNOWN marker with the current time |
| HistoryStore.UpHistory.constructor | src/up-history.c:884-897 | A new object has no id, no data, no timer and the default age limit |
| HistoryStore.UpHistory.SetMaxDataAge | src/up-history.c:69-74 | Only the age limit changes |
| HistoryStore.FileNamesDiffer | src/up-history.c:397-407 | No two series and no two ids share a file |
| HistoryStore.Written | src/up-history.c:548-588 | Saving writes the four files of the object's id and no file of another id |
| HistoryStore.UpHistory.SaveToDisk | src/up-history.c:548-588 | The four files of the id are written from the four arrays; without an id nothing is |
| HistoryStore.UpHistory.ScheduleSaveCb | src/up-history.c:593-600 | The timer saves, is forgotten, and is gone |
| HistoryStore.UpHistory.RequestSave | src/up-history.c:604-660 | A save at once at low power, else the pending timer, else a new one |
| HistoryStore.UpHistory.SetHistoryId | src/up-history.c:707-727 | The first id loads its four files and schedules a save; a second id is refused |
| HistoryStore.UpHistory.LoadFiles | src/up-history.c:665-702 | Each series gets the samples of its own file of the id, and the marker |
| HistoryStore.UpHistory.SetState | src/up-history.c:729-738 | Sets the state once there is an id |
| HistoryStore.UpHistory.SetChargeData | src/up-history.c:743-769 | Records a percentage unless there is no id, the state is unknown or the value is the last one |
| HistoryStore.UpHistory.SetRateData | src/up-history.c:774-800 | The same for the rate |
| HistoryStore.UpHistory.SetTimeFullData | src/up-history.c:805-833 | The same for the time to full, which must not be negative |
| HistoryStore.UpHistory.SetTimeEmptyData | src/up-history.c:838-866 | The same for the time to empty |
| HistoryStore.RecordExactly | src/up-history.c:743-866 | A sample is recorded if and only if there is an id, the state is known, the value is not the last one and a time is not negative; it has the present time and state and is the last of its series; no other series changes; all is saved at once at low power, which is at most ten percent when discharging, and else by the timer |
| HistoryStore.StateComesAfterId | src/up-history.c:729-769 | A new object records nothing before it has an id and then a state; a state set before the id is not kept |
| HistoryStore.RepeatIsRefused | src/up-history.c:743-866 | A value that was just recorded is not recorded again |
| HistoryStore.IdIsSetExactly | src/up-history.c:665-727 | An id is set once; each series then has what its own file gives, and one UNKNOWN sample of 0 with the present time |
| HistoryStore.TimerAndEndSaveAll | src/up-history.c:593-600 | The timer and the end of the object write all arrays, and no timer is left |
| HistoryStore.NamesAndAge | src/up-history.c:397-407 | The names of the four files; and a week is the default age limit |
| HistoryStore.UpHistory.GetData | src/up-history.c:241-276 | A read is the down-sampled window of the series that is asked for |
| HistoryStore.UpHistory.Finalize | src/up-history.c:901-930 | The timer is removed and everything is saved once more |
| HistoryStore.StepKeepsSafe | src/up-history.c:593-866 | After any operation at most one timer lives and is known, and without it all that is in memory was offered to the last save |
| HistoryStore.RunIsSafe | src/up-history.c:593-866 | The same after any run of record, load, timer and save operations |
| HistoryStore.DataOnlyGrows | src/up-history.c:665-866 | No operation changes or drops what a series holds |
| HistoryStore.NoSampleIsForgotten | src/up-history.c:548-866 | A sample accepted anywhere in a run is in the file of its series and id after the object is finalized, unless it is too old |
| HistoryStore.StartOnFiles | src/up-history.c:665-727 | An object that gets its id loads the four files of that id and has a save pending |
| HistoryStore.RestartKeepsHistory | src/up-history.c:548-727 | Finalizing and starting again with the same id gives each series without its old samples, to three decimals, then one marker |
| HistoryStore.RunKeepsOtherFiles | src/up-history.c:397-588 | No run touches the files of another id |
| HistoryStore.OtherIdLoadsItsOwn | src/up-history.c:397-727 | An object with another id loads what it would have loaded without the run |
| RateEstimator.EnergyRing.PushNewEnergy | src/linux/up-device-supply.c:223-240 | The ring is a newest-first list of four: a new energy drops the oldest, the same energy changes nothing |
| RateEstimator.EnergyRing.Clear | src/linux/up-device-supply.c:919-924 | All slots are empty and the newest is slot 0 |
| RateEstimator.EnergyRing.SumUp | src/linux/up-device-supply.c:262-286 | One walk around the ring adds the squared ages, the aged differences and the count of the usable slots |
| RateEstimator.EnergyRing.CalculateRate | src/linux/up-device-supply.c:245-302 | Pushes the energy and gives the fitted rate, or the old one with fewer than three usable slots, no age, or a rate of 0 or above 100, or NaN when a usable slot has no number |
| RateEstimator.PushKeepsNewest | src/linux/up-device-supply.c:223-240 | The newest slot has the pushed energy and the others but the oldest are kept; pushing twice is pushing once if the energy is a number, while NaN is pushed again, which changes something unless all slots hold it with the present time |
| RateEstimator.EmptyHasNoRate | src/linux/up-device-supply.c:261-265 | Below 0.1 Wh, now or in the newest slot, the rate is 0 |
| RateEstimator.FewSlotsKeepOldRate | src/linux/up-device-supply.c:288-290 | With two of the four slots empty, or of energy 0, the old rate is kept |
| RateEstimator.ExtremeSlopesKeepOldRate | src/linux/up-device-supply.c:295-299 | When all slopes are above 100 W, or all are 0, the old rate is kept |
| RateEstimator.OtherwiseRateIsFitted | src/linux/up-device-supply.c:271-301 | If three slots are filled, one at another time than the newest, and the fit is above 0 and at most 100, the rate is the fit, and else the old rate |
| RateEstimator.FitHasLeastSquares | src/linux/up-device-supply.c:271-293 | No line through the present energy misses the energies of the slots by less, in squares, than the one with the fitted rate |
| RateEstimator.RawRateWithinSlopes | src/linux/up-device-supply.c:262-299 | The fitted rate lies between any bounds on the slopes to the usable slots |
| RateEstimator.ConstantRateIsFound | src/linux/up-device-supply.c:245-302 | Energy that falls or rises at a constant rate in (0, 100] gives exactly that rate |
| RateEstimator.RateStaysInRange | src/linux/up-device-supply.c:245-302 | A rate is within 0 and 100 or NaN; it is a number if all energies and the old rate are, and NaN if it is fitted to an energy that is none |
| SupplyRefresh.UpDeviceSupply.ResetValues | src/linux/up-device-supply.c:106-154 | A removed battery forgets everything |
| SupplyRefresh.UpDeviceSupply.Coldplug | src/linux/up-device-supply.c:615-704 | Full energy and voltages are read once, and again when the units change |
| SupplyLaws.LearnedFull | src/linux/up-device-supply.c:641-673 | On the first refresh, and when the units change, the full energy is that which is read, or the full charge or else the design charge with the design voltage |
| SupplyLaws.ElseIsKept | src/linux/up-device-supply.c:606-703 | Nothing is read again unless the files of the units in use are gone |
| SupplyLaws.LearnedVoltages | src/linux/up-device-supply.c:645-654 | Design voltages that are read are kept; a lithium-ion cell below 4.25 V without them has 3.0 V and 4.2 V |
| SupplyLaws.DesignVoltageIsFirst | src/linux/up-device-supply.c:358-412 | The first voltage above one volt, of four in their order, else 5 V on USB and 10 V elsewhere |
| SupplyRefresh.UpDeviceSupply.RefreshBattery | src/linux/up-device-supply.c:546-952 | One refresh takes the device to the state that the readings and its past determine |
| SupplyRefresh.UpDeviceSupply.Measure | src/linux/up-device-supply.c:707-878 | Energy, full energy, rate and percentage with all their corrections: the full energy is raised to the energy, a missing rate is fitted, an almost empty battery has none |
| SupplyRefresh.UpDeviceSupply.Report | src/linux/up-device-supply.c:707-723 | Energy and rate in Wh and W, converted from Ah and A where the hardware counts charge |
| SupplyRefresh.UpDeviceSupply.FindPercentage | src/linux/up-device-supply.c:750-810 | The reported percentage, or an estimate for a battery that is not calibrated, or the share of the full energy, held within 0 and 100 |
| SupplyRefresh.UpDeviceSupply.Estimate | src/linux/up-device-supply.c:756-801 | The percentage estimated from the voltage, moved halfway and only in the direction of the state, or NaN for 0/0 and for a previous NaN |
| SupplyRefresh.UpDeviceSupply.Publish | src/linux/up-device-supply.c:814-947 | The state is settled, the times follow from it, a changed energy is remembered with its rate, and a changed state clears the ring |
| SupplyLaws.TimeToFullIsThatOfMissing | src/linux/up-device-supply.c:881-906 | Charging at a rate above 0, without a time of its own, a battery is shown the whole seconds s in which what is missing comes in, s * rate <= 3600 * missing < (s + 1) * rate, or 0 if that is more than 20 hours |
| SupplyLaws.TimeToEmptyIsThatOfEnergy | src/linux/up-device-supply.c:881-906 | Discharging likewise, with the energy itself and ten days |
| SupplyLaws.OtherTimes | src/linux/up-device-supply.c:881-906 | No time without a rate or in another state; a time that the hardware knows within the same limits |
| SupplyLaws.KnownStateIsShown | src/linux/up-device-supply.c:812-816 | A state that is read is shown, but a battery that waits for charge at 100 percent is full |
| SupplyLaws.UnknownStateIsGuessed | src/linux/up-device-supply.c:818-875 | When each state is guessed, if and only if: by the line power, the percentage and the number of batteries; empty also when nothing is held |
| SupplyLaws.ReadEnergyIsShown | src/linux/up-device-supply.c:599-603 | The energy that is read is shown, the present one before the average one |
| SupplyLaws.ReadChargeIsConverted | src/linux/up-device-supply.c:710-715 | Without energy and power a charge counts with the design voltage, the present one before the average one |
| SupplyLaws.ReadRateIsShown | src/linux/up-device-supply.c:707-748 | A power, or else a current, between 0.01 and 100 W is the rate, without its sign; a current counts with the design voltage when charges are known |
| SupplyLaws.OtherRateIsEstimated | src/linux/up-device-supply.c:742-748 | Any other rate is the one estimated from the ring behind the energy that is pushed first |
| SupplyLaws.FullIsAtLeastHeld | src/linux/up-device-supply.c:725-729 | The full energy is the larger one of the learned one and of what is held |
| SupplyLaws.ReadPercentageIsShown | src/linux/up-device-supply.c:750-810 | A capacity within 0 and 100 is shown as it is, and else the nearer end; without one the share of the full energy is |
| SupplyLaws.EnergyFollowsCapacity | src/linux/up-device-supply.c:804-806 | A battery with a capacity and without an energy holds that share of the full energy |
| SupplyLaws.EstimateOfVoltage | src/linux/up-device-supply.c:766-799 | Without a previous percentage the estimate is, to half a percent, the mean voltage's share of four fifths of the design range, the lower or the upper ones by the state |
| SupplyLaws.EstimateMovesHalfway | src/linux/up-device-supply.c:789-799 | With one it is, to half a percent, halfway between the two if the new one lies onward in the direction of the state, and else the previous one |
| SupplyLaws.EstimateWithoutRange | src/linux/up-device-supply.c:766-799 | With one voltage for empty and full, a mean voltage above or below it counts as 100 or 0 unless the previous percentage holds it back; the same voltage leaves that, or NaN without one |
| SupplyLaws.KnownEndsAreEstimates | src/linux/up-device-supply.c:761-765 | A state EMPTY or FULLY_CHARGED that is read gives 0 or 100 |
| SupplyLaws.MissingCapacityIsEstimated | src/linux/up-device-supply.c:754-803 | A capacity of 0 is replaced by the estimate, within 0 and 100, if and only if a charge is missing and both design voltages are there |
| SupplyLaws.RoundedAway | src/linux/up-device-supply.c:799-799 | `round` takes halves away from 0 |
| SupplyLaws.PastIsRemembered | src/linux/up-device-supply.c:911-925 | The newest slot holds the published energy, all slots are empty after a change of state, and the old rate is the one shown with the latest change of the energy |
| SupplyLaws.AbsenceForgets | src/linux/up-device-supply.c:585-597 | A battery that is absent has no energies, rates, times, percentage and state |
| SupplyRefresh.UpDeviceSupply.Remember | src/linux/up-device-supply.c:911-925 | A changed energy goes into the ring with its rate, and a changed state clears the ring |
| SupplyRefresh.PercentageIsNumberExactly | src/linux/up-device-supply.c:750-810 | The percentage is a number if and only if an estimate is not needed, or the previous percentage is a number and it or the voltages give one |
| SupplyRefresh.RefreshStaysBounded | src/linux/up-device-supply.c:546-952 | Whatever is reported: rates and percentage in [0, 100] or NaN, an energy that is a number at most full, times not above ten days or twenty hours |
| SupplyRefresh.RefreshKeepsRange | src/linux/up-device-supply.c:546-952 | If all values were numbers in range, they are again if and only if the reading allows an estimate where it needs one; computed times are then not negative |
| SupplyRefresh.RunStaysBounded | src/linux/up-device-supply.c:546-952 | The bounds hold after every run of refreshes from a new device |
| SupplyRefresh.RunStaysInRange | src/linux/up-device-supply.c:546-952 | In a run from a new device everything is always a number in range if and only if every reading allows its estimate |
| SupplyRefresh.FlatBatteryHasNoPercentage | src/linux/up-device-supply.c:754-810 | A reading with one voltage for empty, full and now publishes a percentage of NaN, and an energy of NaN if it reports less than 0.1 Wh |
| SupplyRefresh.MeasuredInRange | src/linux/up-device-supply.c:707-878 | Measured rate and percentage are in [0, 100] or NaN, the energy is at most full, and NaN exactly if it is computed from a percentage of NaN; a rate above 0 comes with at least 0.1 Wh |
| SupplyRefresh.BlendIsHeldBack | src/linux/up-device-supply.c:787-800 | A blended percentage moves only up while charging and only down otherwise, but for rounding |
| SupplyRefresh.EstimateIsHeldBack | src/linux/up-device-supply.c:756-803 | With a previous percentage the whole estimate is a number and obeys the same, whatever the voltages are |
| UnknownPoll.UnknownPoller.SetupUnknownPoll | src/linux/up-device-supply.c:1234-1261 | A timer and perhaps a retry for an unknown state with retries left, else the count starts again |
| UnknownPoll.UnknownPoller.DisableUnknownPoll | src/linux/up-device-supply.c:1263-1272 | The timer, if there is one, is removed and forgotten |
| UnknownPoll.UnknownPoller.Refresh | src/linux/up-device-supply.c:1274-1302 | A battery's refresh drops the old timer first; an absent battery gets no new one |
| UnknownPoll.RefreshSetsTimerExactly | src/linux/up-device-supply.c:1234-1302 | A refresh of a present battery sets the timer if and only if polling is on, the state is unknown or the machine always polls, and fewer than five were counted; it counts if more than a second went by |
| UnknownPoll.TimerIsRefresh | src/linux/up-device-supply.c:1092-1302 | A timer that fires has the effect of any other refresh |
| UnknownPoll.UnknownPoller.PollUnknownBattery | src/linux/up-device-supply.c:1092-1104 | The timer that fires is gone after the refresh it starts |
| UnknownPoll.UnknownPoller.Finalize | src/linux/up-device-supply.c:1330-1350 | No timer is left behind |
| UnknownPoll.RunIsLinked | src/linux/up-device-supply.c:1234-1302 | After any run at most one timer lives and is the known one, and there are at most five retries |
| UnknownPoll.PollsExactlyWhileFew | src/linux/up-device-supply.c:1234-1261 | In a chain of unknown states the next timer is set if and only if fewer than five refreshes were slow |
| UnknownPoll.PollingEnds | src/linux/up-device-supply.c:1242-1260 | Refreshes more than a second apart end with the sixth |
| UnknownPoll.QuickPollingNeverEnds | src/linux/up-device-supply.c:1253-1256 | Refreshes at most a second apart go on for any length |
| PollRegistry.PollDaemon.EnablePoll | src/up-daemon.c:811-839 | The device gets one live timer with the interval of its level |
| PollRegistry.PollDaemon.DisablePoll | src/up-daemon.c:924-926 | Its timer is removed |
| PollRegistry.PollDaemon.EnableNotifications | src/up-daemon.c:841-851 | The device gets one handler |
| PollRegistry.PollDaemon.DisableNotifications | src/up-daemon.c:853-868 | The handler is disconnected and forgotten; without one nothing happens |
| PollRegistry.PollDaemon.StartPoll | src/up-daemon.c:870-903 | A new device is registered, with timer and handler unless polling is paused; a registered one stays as it is |
| PollRegistry.PollDaemon.StopPoll | src/up-daemon.c:905-932 | The device has no record, timer or handler any more |
| PollRegistry.PollDaemon.PausePoll | src/up-daemon.c:934-963 | All timers and handlers go, all records stay |
| PollRegistry.PollDaemon.ResumePoll | src/up-daemon.c:965-986 | Every record has its timer and handler again |
| PollRegistry.PollDaemon.ChangeIdleTimeout | src/up-daemon.c:755-772 | The device is stopped and started with the same callback |
| PollRegistry.PollDaemon.SetWarningLevel | src/up-daemon.c:755-772 | A changed level restarts the timer of a watched device |
| PollRegistry.PollDaemon.FireTimeout | src/up-daemon.c:788-808 | The device of a timer that fires is registered, so the assertion holds, and its callback is called |
| PollRegistry.PollDaemon.DeviceDestroyed | src/up-daemon.c:774-786 | The record and the timer of a device that goes away are dropped; an unknown device is ignored |
| PollRegistry.PollDaemon.Perform | src/up-daemon.c:755-986 | Every operation keeps tables, timers, handlers and levels in agreement |
| PollRegistry.TimersAreSources | src/up-daemon.c:811-926 | Each timer of the registry is exactly one live timer of the main loop, for its device and with its interval |
| PollRegistry.HandlersAreConnected | src/up-daemon.c:841-868 | Each watched device has exactly one connected handler, and others have none |
| PollRegistry.StepKeepsConsistent | src/up-daemon.c:755-986 | Not paused: each registered device has one timer, with the interval for its level, and one handler; paused: there are none |
| PollRegistry.RunIsConsistent | src/up-daemon.c:755-986 | The same after any run from the start |
| PollRegistry.RegisteredByPast | src/up-daemon.c:755-986 | After any operations a device is registered if and only if it was started and not stopped or destroyed since, with the callback of that start; its level is the one given last |
| PollRegistry.TimersByPast | src/up-daemon.c:755-986 | It has a timer and a handler if and only if it is registered and the daemon is not paused, at 120 seconds for the levels UNKNOWN and NONE and at 30 for all others |
| PollRegistry.PauseThenResume | src/up-daemon.c:934-986 | A pause and a resume bring back exactly what was there |
| PollRegistry.StepCommutesWithResume | src/up-daemon.c:755-986 | An operation while paused and then a resume is a resume and then the operation |
| PollRegistry.PauseIsTransparent | src/up-daemon.c:755-986 | Any operations between a pause and a resume have the effect they have without the pause |
| Suspend.UpBackend.LockTake | src/linux/up-backend.c:671-723 | The lock is taken if it is given and not held |
| Suspend.UpBackend.LockRelease | src/linux/up-backend.c:725-737 | The lock is not held |
| Suspend.UpBackend.PrepareForSleep | src/linux/up-backend.c:748-789 | The history is extended by pausing and then releasing, or by taking, refreshing and then resuming, and no state of the object's whole history is unsound; intervals follow the refreshed levels |
| Suspend.UpBackend.RefreshDevices | src/linux/up-backend.c:777-784 | The refreshes change levels only |
| Suspend.LevelsAreFound | src/linux/up-backend.c:776-788 | After waking up each device has the level that its refresh found last, and a timer with the interval of that level |
| Suspend.UpBackend.Other | src/up-daemon.c:755-932 | Other operations on the daemon keep the history sound |
| Suspend.CallIsSound | src/linux/up-backend.c:748-789 | Every state on the way through a handler is sound, and the last one is that of a settled sleep or wake |
| Suspend.RunIsSound | src/linux/up-backend.c:671-789 | The same for every state of every run in which logind's signals alternate |
| Suspend.QuietExactly | src/linux/up-backend.c:671-789 | At every point of every run, also in the middle of a handler, nothing is polled without the lock if and only if polling is paused or the lock was granted last time |
| Suspend.AlwaysQuiet | src/linux/up-backend.c:671-789 | If the lock is always given, no timer is live without it at any point |
| Suspend.OtherOrdersAreNotSound | src/linux/up-backend.c:768-788 | Releasing before pausing, or resuming before taking, passes through an unsound state |
| WarningLevel.PolicyConfig.LoadPercentagePolicy | src/up-daemon.c:1057-1064 | The default percentages are in order, so that they are valid, and loading them where they are not does what validating does; the rest of the policy stays |
| WarningLevel.PolicyConfig.Validate | src/up-daemon.c:1077-1095 | Thresholds that are too high or not descending are replaced by the defaults, percentages and times each on their own |
| WarningLevel.ValidatedIsOrdered | src/up-daemon.c:1077-1095 | The thresholds in use are strictly descending, and good ones are kept |
| WarningLevel.ValidatedExactly | src/up-daemon.c:1057-1095 | Percentages that do not descend from below 100 become 10, 3 and 2, and times that do not descend 20, 5 and 2 minutes, each of the two kinds by itself |
| WarningLevel.LevelExactly | src/up-daemon.c:656-708 | The level of any device by its state, kind, remaining time or percentage, with the bands of mice and keyboards and the level of a UPS |
| WarningLevel.LevelIsMonotone | src/up-daemon.c:656-708 | The level does not drop as the charge or the remaining time falls |
| WarningLevel.ActionExactly | src/up-daemon.c:656-708 | The level is ACTION if and only if a discharging device other than a mouse or keyboard is at its threshold, in time or in percent, or its percentage decides and is not a number |
| WarningLevel.PercentageBandsAreReached | src/up-daemon.c:656-708 | Each level has a percentage that gives it |
| WarningLevel.TimeBandsAreReached | src/up-daemon.c:656-708 | Each level has a remaining time that gives it, ACTION if and only if its threshold is above 0 |
| CriticalAction.ActionDaemon.SetWarningLevel | src/up-daemon.c:622-654 | Entering ACTION arms a timer unless one is remembered; leaving it removes the timer only |
| CriticalAction.ActionDaemon.TakeActionTimeoutCb | src/up-daemon.c:608-619 | The timer is forgotten and gone |
| CriticalAction.RunIsLinked | src/up-daemon.c:608-654 | At most one timer lives, it is the remembered one, and only at level ACTION |
| CriticalAction.ActionIsJustified | src/up-daemon.c:608-654 | When the action is taken, ACTION was entered at least twenty seconds before, every evaluation since gave ACTION, and nothing fired since |
| CriticalAction.StuckExactlyWhenCancelled | src/up-daemon.c:642-653 | The daemon remembers a dead timer if and only if ACTION was once left while the timer ran |
| CriticalAction.EntryArmsUnlessCancelled | src/up-daemon.c:622-654 | Entering ACTION arms a timer if and only if none was cancelled before |
| CriticalAction.ActionFollowsExactly | src/up-daemon.c:608-654 | After such an entry the action can be taken if and only if twenty seconds have passed, and taking it leaves no timer and no id |
| CriticalAction.SecondEntryIsIgnored | src/up-daemon.c:642-653 | A run in which ACTION is left and entered again and no action follows |
| DisplayBattery.DisplayDaemon.Update | src/up-daemon.c:149-300 | The cached fields are the composite, the display device agrees with them and is present exactly if the kind is known; TRUE exactly when the test for a change finds one, in which NaN differs from itself |
| DisplayBattery.Gather | src/up-daemon.c:169-241 | The loop gives the sums over the batteries that supply power, or the first UPS |
| DisplayBattery.Combine | src/up-daemon.c:149-262 | The whole computation is the closed form, and something is present exactly if the kind is known |
| DisplayBattery.AddBattery | src/up-daemon.c:213-240 | One battery more in the state and in each sum |
| DisplayBattery.Recalculate | src/up-daemon.c:243-259 | Percentage and time follow from the total energies |
| DisplayLaws.CompositeIsSum | src/up-daemon.c:149-261 | Without a UPS the energies and the rate are the sums over the batteries; with one battery its percentage and times are shown; with several the percentage p has full * p == 100 * energy of the totals, and the time that remains at a known rate is that of the total or of the missing energy, the others are sums |
| DisplayLaws.OnlyBatteryIsShown | src/up-daemon.c:176-246 | The only battery is shown with its own percentage, energies, rate and both times |
| DisplayLaws.TwoBatteriesAreAdded | src/up-daemon.c:229-259 | The same with two batteries written out |
| DisplayLaws.OrderDoesNotMatter | src/up-daemon.c:176-261 | Lists that are permutations of each other give the same composite, up to the choice between pending and full |
| DisplayLaws.StateExactly | src/up-daemon.c:209-227 | Each composite state if and only if: a charging battery, else a discharging one, else the first that waits or is full |
| DisplayLaws.UpsIsShown | src/up-daemon.c:194-207 | A UPS is shown as it is, unless several batteries are in front of it; then its percentage and times follow from its own energies |
| DisplayBattery.DisplayDaemon.Show | src/up-daemon.c:264-299 | The fields and the display device are set together, and only when a field differs |
| DisplayBattery.SameAsItself | src/up-daemon.c:264-272 | The same composite is shown again if and only if one of its values is not a number |
| DisplayBattery.NextStateIsComposite | src/up-daemon.c:213-228 | The fold over states is: charging if any, else discharging if any, else the first waiting or full one, else unknown |
| DisplayBattery.PercentageIsBetween | src/up-daemon.c:245-262 | With several batteries and no UPS the percentage lies between the smallest and largest energy ratio |
| DisplayBattery.PercentageIsAtMost100 | src/up-daemon.c:239-251 | It is at most 100 if and only if the energies do not exceed the full energies, or, where those are not known or there is one battery, the percentages sum to at most 100 |
| DisplayBattery.PercentageIsNumberExactly | src/up-daemon.c:230-251 | It is a number if and only if the energies, or in the other cases the percentages, of all batteries are |
| DisplayBattery.UpsReplacesBatteries | src/up-daemon.c:180-262 | A UPS replaces all batteries; it is shown as it is if and only if there are not several in front of it or recomputing percentage and time changes nothing |
| DisplayBattery.PendingDependsOnOrder | src/up-daemon.c:213-228 | The composite is pending if and only if the first battery that waits or is full is |
| DeviceIndex.UpDeviceList.Lookup | src/up-device-list.c:51-69 | The device of a path with one more reference, or nothing |
| DeviceIndex.UpDeviceList.Insert | src/up-device-list.c:75-97 | The device is last in the array and in the table, with two more references |
| DeviceIndex.UpDeviceList.Remove | src/up-device-list.c:99-130 | The device is in neither, its two references are dropped, and the others stay in order |
| DeviceIndex.UpDeviceList.RemoveFromTable | src/up-device-list.c:99-120 | All entries of the device leave the table, with its one reference |
| DeviceIndex.UpDeviceList.RemoveFromArray | src/up-device-list.c:121 | The first occurrence leaves the array, with its reference |
| DeviceIndex.UpDeviceList.Clear | src/up-device-list.c:135-164 | Everything is removed and two references, or with the caller's three, of each device are dropped |
| DeviceIndex.UpDeviceList.DropAll | src/up-device-list.c:157-160 | Table and array are emptied and each device lost the two references they held |
| DeviceIndex.UpDeviceList.ClearTable | src/up-device-list.c:135-160 | The table is empty and each of its devices lost one reference |
| DeviceIndex.InsertKeepsValid | src/up-device-list.c:75-97 | Array and table keep the same devices, each once |
| DeviceIndex.RemoveKeepsValid | src/up-device-list.c:99-130 | The same for a removal |
| DeviceEvents.DeviceBackend.DeviceAdd | src/linux/up-backend.c:210-239 | A new path is listed and announced; a known one is a change; the mutual calls end |
| DeviceEvents.DeviceBackend.DeviceAddedCb | src/up-daemon.c:991-1021 | The device is listed, and announced if it has a path on the bus |
| DeviceEvents.DeviceBackend.DeviceChanged | src/linux/up-backend.c:184-208 | An unknown path is an addition; the looked-up reference is dropped |
| DeviceEvents.DeviceBackend.DeviceRemove | src/linux/up-backend.c:241-261 | A listed device is removed and its removal announced |
| DeviceEvents.DeviceBackend.DeviceRemovedCb | src/up-daemon.c:1023-1053 | The device leaves the list, and if it was announced its removal is, and its last reference is dropped |
| DeviceEvents.DeviceBackend.Uevent | src/linux/up-backend.c:263-281 | Each action of the kernel does its part, others nothing |
| DeviceEvents.StepKeepsFollowed | src/linux/up-backend.c:184-281 | The signals so far replay to the announced devices; listed devices have three references; removed announced ones have none |
| DeviceEvents.EventExactly | src/linux/up-backend.c:184-281 | One event does nothing, or lists one new device at the end and announces its path, or removes a listed one and says so if it was announced |
| DeviceEvents.TableByPast | src/linux/up-backend.c:184-281 | After any run the table has exactly the paths added and not removed since, with the device that was made at the first addition |
| DeviceEvents.ReplayMatchesEnumeration | src/up-daemon.c:412-439 | After any run the paths that clients know are those that EnumerateDevices returns if and only if no unexported device precedes an exported one; every removal names a known path |
| DeviceReplay.ReplayIsInOrder | src/linux/up-backend.c:184-281 | As long as no two listed devices have the same path, clients have them in the order of the list |
| DeviceReplay.ReplayIsEnumeration | src/up-daemon.c:412-439 | Then what they have is the sequence that EnumerateDevices returns, under the same condition |
| DeviceEvents.EnumeratedIsAnnounced | src/up-daemon.c:412-439 | The enumeration stops at the first device without a path, so it is complete exactly when those come last |
| DeviceEvents.ShutdownReleasesAll | src/up-daemon.c:541-551 | Clearing the list drops all three references to each exported device |
| Notification.ExportedSkeleton.ScheduleEmitChanged | dbus/up-daemon-generated.c:2020-2044 | A property is pending once, with its first value |
| Notification.ExportedSkeleton.Set | dbus/up-daemon-generated.c:2065-2084 | A changed value is stored, pending when exported, and a notification is queued |
| Notification.ExportedSkeleton.Notify | dbus/up-daemon-generated.c:2046-2063 | Pending changes get one idle source |
| Notification.ExportedSkeleton.EmitChanged | dbus/up-daemon-generated.c:1960-2018 | One signal with the pending properties that differ, none if there are none or the interface is off the bus, and nothing stays pending |
| Notification.ExportedSkeleton.Flush | dbus/up-daemon-generated.c:1853-1870 | A scheduled emission happens now, else nothing |
| Notification.EmissionEffect | dbus/up-daemon-generated.c:1960-2018 | For any client: a property is right after an emission if and only if it was right or is pending and has not gone back |
| Notification.SignalIsExact | dbus/up-daemon-generated.c:1971-1986 | The signal names exactly the properties in which a client in sync is behind |
| Notification.DeltaInOrder | dbus/up-daemon-generated.c:1971-1986 | A signal has the changes in the order of the pending list: that of a list is that of its parts |
| Notification.DeltaOfOne | dbus/up-daemon-generated.c:1971-1986 | A pending property is announced with its present value, unless it went back |
| Notification.PropertiesAreLastSet | dbus/up-daemon-generated.c:2066-2084 | In every run each property has the value that it was set to last |
| Notification.EmissionSettles | dbus/up-daemon-generated.c:1853-2063 | After an emission nothing is pending or scheduled; a thaw schedules one if and only if something was set and is pending; off the bus nothing becomes pending |
| Notification.EmissionSyncs | dbus/up-daemon-generated.c:1960-2018 | After an emission a client in sync has the server's properties |
| Notification.StepKeepsSync | dbus/up-daemon-generated.c:1853-2084 | On the bus every operation keeps a client in sync: pending entries hold its values, once each, and an emission is due |
| Notification.ClientStaysInSync | dbus/up-daemon-generated.c:1853-2084 | In every run on the bus a client that started in sync has the server's properties whenever nothing is pending |
| Notification.ReturnSyncsExactly | dbus/up-daemon-generated.c:1988-2077 | A client in sync when the interface leaves the bus is in sync when it returns if and only if every property is still pending or has the value that clients held |
| Notification.UndoneChangeIsSilent | dbus/up-daemon-generated.c:1977-1986 | A change that is undone before the emission is not announced |
| Notification.LateReaderMissesUndoneChange | dbus/up-daemon-generated.c:1977-1986 | A client that read in between then keeps the wrong value with nothing pending |
| HidppMatching.Channel.ReadResp | src/linux/hidpp-device.c:375-473 | The loop over the messages gives what the stream, the request and the bytes in the buffer determine, and returns TRUE exactly when it sets no error |
| HidppMatching.Channel.Cmd | src/linux/hidpp-device.c:329-370 | The request is written, older messages are dropped, and the response may overwrite the request |
| HidppMatching.FirstDecides | src/linux/hidpp-device.c:402-470 | For any stream, the first input that does not pass decides, with the bytes in the buffer then, its own and older ones |
| HidppMatching.AnswersExactly | src/linux/hidpp-device.c:426-452 | A message with a whole header answers by its own bytes, a shorter one exactly when older bytes complete it |
| HidppMatching.SuccessExactly | src/linux/hidpp-device.c:402-470 | A request succeeds with the first message that does not pass, which has the request's device, feature and function in its own bytes if and only if it has a whole header |
| HidppMatching.AnsweredExactly | src/linux/hidpp-device.c:402-470 | Among whole messages a request succeeds if and only if the first that is not ignored answers it, whatever was in the buffer |
| HidppMatching.BufferIsLastHeard | src/linux/hidpp-device.c:402-473 | Among whole messages the buffer ends with the last message heard, up to the first that is not ignored, or is as it was |
| HidppLaws.AnswerIsRead | src/linux/hidpp-device.c:402-473 | The bytes of the message that answers a turn are those in the buffer |
| HidppMatching.LeavesErrorExactly | src/linux/hidpp-device.c:174-185 | It ends with an error message of a code if and only if that was heard last, from any device about any request, or was there and nothing is heard |
| HidppMatching.SuccessIsNoError | src/linux/hidpp-device.c:174-185 | A success leaves no error message in the buffer, unless the feature asked has the error number |
| HidppMatching.ShortMessagePassesForResponse | src/linux/hidpp-device.c:426-452 | A message of fewer than four bytes is taken for the response if and only if it is the beginning of the request that is still in the buffer, but for its type |
| HidppDevice.Device.Command | src/linux/hidpp-device.c:329-370 | The bytes written are the request's; the turn of request, buffer and exchange is logged; the return value and the error both follow from its outcome |
| HidppDevice.Device.MapAdd | src/linux/hidpp-device.c:481-527 | The index in a response, if it is not 0, is added behind the known ones; a refusal or 0 adds nothing |
| HidppLaws.FeatureIsLearned | src/linux/hidpp-device.c:481-527 | An answered question for a feature teaches the index in its bytes unless that is 0 |
| HidppLaws.NothingElseIsLearned | src/linux/hidpp-device.c:481-527 | Nothing is learned from other turns and from questions that were not answered |
| HidppLaws.FirstOfExactly | src/linux/hidpp-device.c:210-224 | A feature has the index with which it was learned first, if it was |
| HidppDevice.Device.RefreshFeatures | src/linux/hidpp-device.c:730-751 | Both features are asked for, what is found is learned, and a refusal is no failure |
| HidppDevice.FirstOfIsSafe | src/linux/hidpp-device.c:210-224 | A lookup in a map without the error number does not give it |
| HidppDevice.Device.RefreshVersion | src/linux/hidpp-device.c:672-719 | A ping gives the version; the two expected refusals are no failure, clear the buffer, and tell old devices from unreachable ones |
| HidppDevice.Device.RefreshKind | src/linux/hidpp-device.c:753-793 | The kind register of devices up to version 2 |
| HidppLaws.KindByCode | src/linux/hidpp-device.c:771-791 | The kind for each number of the register |
| HidppDevice.Device.RefreshModel | src/linux/hidpp-device.c:795-817 | The name register of devices up to version 2, up to its length or first NUL |
| HidppLaws.NameByBytes | src/linux/hidpp-device.c:810-816 | The name is the bytes behind its length, up to that length, fourteen bytes, or the first NUL |
| HidppDevice.Device.RefreshSerial | src/linux/hidpp-device.c:819-839 | The four bytes of the serial number |
| HidppDevice.Device.RefreshExactBattery | src/linux/hidpp-device.c:844-859 | After an address error the device is approximate and no error is left, but FALSE is returned |
| HidppDevice.Device.RefreshRegisterBattery | src/linux/hidpp-device.c:843-911 | The exact register, or after an address error the approximate one, from then on; the return value is TRUE again exactly when no error is left |
| HidppDevice.Device.RefreshSolar | src/linux/hidpp-device.c:914-946 | The report that follows the response gives charge and light |
| HidppDevice.Device.RefreshFeatureBattery | src/linux/hidpp-device.c:912-990 | The known features are asked, the level after the solar panel, and the battery is what their last turns give |
| HidppDevice.Device.RefreshLevel | src/linux/hidpp-device.c:948-989 | The status of version 2; a level of 0 does not overwrite the percentage |
| HidppDevice.Device.RefreshBattery | src/linux/hidpp-device.c:841-991 | Which requests are made by version and known features, and the battery that results |
| HidppLaws.RegisterIsRead | src/linux/hidpp-device.c:874-911 | The battery of version 1 by the bytes of the answer: the exact percentage, or each level and status of the approximate register, unknown ones changing nothing |
| HidppLaws.LevelIsRead | src/linux/hidpp-device.c:960-985 | The status and level of version 2 by the bytes of the answer: 0 discharging, 1, 2 and 4 charging, 3 full, and no level |
| HidppLaws.LightIsRead | src/linux/hidpp-device.c:939-946 | The percentage and the light in the report of a solar panel, which charges above 200 lux |
| HidppLaws.FeatureBatteryIsRead | src/linux/hidpp-device.c:912-990 | The battery of version 2 for each combination of known features, by the bytes of the last two answers |
| HidppDevice.Device.RefreshIdentity | src/linux/hidpp-device.c:672-751 | Version, and features when asked for or when the version rises to 2; the features are those known before and those found |
| HidppDevice.Device.RefreshDescription | src/linux/hidpp-device.c:753-839 | Kind, model and serial number, in this order, up to the first error |
| HidppDevice.Device.RefreshStatus | src/linux/hidpp-device.c:841-1000 | The battery if asked for, and a device that answered is present |
| HidppDevice.Device.RefreshSections | src/linux/hidpp-device.c:672-1000 | TRUE exactly when no turn failed; then exactly what the flags ask for was asked, in order, and the battery and the presence follow; the rest is not changed |
| HidppDevice.Device.Settle | src/linux/hidpp-device.c:1001-1014 | The error of an unreachable device is freed and TRUE returned, which needs an error to free; else return value and error stay |
| HidppDevice.Device.Refresh | src/linux/hidpp-device.c:646-1015 | TRUE exactly when no error is left; and exactly when no turn failed or the device is out of reach; a crash exactly when a refresh without a failure ends with an unreachable message, which takes a feature with the error number |
| HidppLaws.SentExactly | src/linux/hidpp-device.c:646-1000 | Everything that a refresh without failures sends, byte by byte and in order, by the flags and what is known of the device |
| HidppLaws.LowBits | src/linux/hidpp-device.c:763-763 | The register of the n-th device is the base plus n - 1 |
| HidppDevice.NoFailureNoError | src/linux/hidpp-device.c:1001-1014 | No failure and no request for the error number leave no unreachable message |
| HidppDevice.NoFailureExactly | src/linux/hidpp-device.c:646-1015 | Among whole messages a refresh has no failure if and only if each request was answered, is a question for a feature, or is a ping or a request for the exact battery behind which an expected error, of any device, was heard last |
| HidppDevice.FailsExactly | src/linux/hidpp-device.c:329-473 | The same for each single turn, among whole messages |
| HidppLaws.FailureByMessages | src/linux/hidpp-device.c:329-473 | The same with the requests and the error codes as bytes |
| HidppLaws.UnreachableByBytes | src/linux/hidpp-device.c:1001-1009 | A message says that the device is out of reach if and only if it is a short error message with code 9 |
| HidppDevice.PingFailsExactly | src/linux/hidpp-device.c:683-719 | Among whole messages a ping fails if and only if it is not answered and neither of the two errors was heard last |
| HidppDevice.UnreachableExactly | src/linux/hidpp-device.c:1001-1014 | Among whole messages the buffer ends with the message of a device out of reach if and only if the last request that uses it, other than a ping, heard that last |
| HidppDevice.RefreshOutcomeExactly | src/linux/hidpp-device.c:646-1015 | Among whole messages both ways in which a refresh returns TRUE, and the one in which it crashes, by what the devices sent |
| HidppDevice.TimeoutBehindForeignError | src/linux/hidpp-device.c:683-712 | A stream in which another device's error comes before the time is up: the ping is not answered and does not fail |
| HidppDevice.SerialTimeoutReturnsTrue | src/linux/hidpp-device.c:819-1015 | The same for the serial number: the request fails, and the refresh returns TRUE |
| HidppDevice.ErrorNumberedFeatureCrashes | src/linux/hidpp-device.c:948-1009 | A feature with the error number whose answer reads as an unreachable device: no failure, and a crash |
| InputBitmap.ClearLowest | src/linux/up-input.c:86-89 | `val &= val - 1` makes the value smaller and clears exactly one bit |
| InputBitmap.CountBits | src/linux/up-input.c:86-89 | The loop ends after as many steps as bits are set |
| InputBitmap.AndIsBitwise | src/linux/up-input.c:86-89 | The conjunction has the bits that both numbers have |
| InputBitmap.ParseHexOfDigits | src/linux/up-input.c:83 | A word of hexadecimal digits that fits a long parses to its value |
| InputBitmap.ParseHexOfText | src/linux/up-input.c:83-83 | strtoul on any digits, behind spaces, a sign and 0x, whatever follows: numbers that do not fit become the largest one, negative ones count from the end |
| InputBitmap.HexValueOfConcat | src/linux/up-input.c:83-83 | Digits count by their place: those in front of k others count 16^k times as much |
| InputBitmap.HexDigitsInOrder | src/linux/up-input.c:83-83 | The digits 0 to f and 0 to F have the values 0 to 15 |
| InputBitmap.StrToBitmask | src/linux/up-input.c:71-94 | Every bit of the buffer is that bit of the number that the whole text stands for, least significant word last, and the count is its number of bits |
| InputBitmap.FillWords | src/linux/up-input.c:79-90 | The words fill the buffer from the last one on, and the count is the sum of their bits |
| InputBitmap.HeldIsRepresented | src/linux/up-input.c:78-90 | Words in reverse order with zeros behind them are the bits of the whole number |
| InputBitmap.BitsArePopcount | src/linux/up-input.c:80-90 | The bits of the words are together those of the whole number |
| InputEvents.Input.EventIO | src/linux/up-input.c:99-157 | Whatever the reads give, nothing is lost, the offset stays below the size of an event, and the events handled are exactly those of the stream; it ends at a hang-up, an incomplete read or when nothing is ready |
| InputEvents.Input.Take | src/linux/up-input.c:112-154 | One read continues the event in the buffer, and completes it exactly when its size is reached |
| InputEvents.Input.Handle | src/linux/up-input.c:133-153 | One event is handled; only a switch event for the lid asks for the switches, and only an answer tells the daemon |
| InputEvents.EventIsPiece | src/linux/up-input.c:112-126 | The i-th event is the i-th piece of 24 bytes of the stream |
| InputEvents.RemainderIsSuffix | src/linux/up-input.c:118-123 | What is in the buffer is what is behind the whole events |
| InputEvents.EventsOfConcat | src/linux/up-input.c:112-126 | The events of a stream are those of any first part and those of what was left with the second part |
| InputEvents.FragmentationIndependence | src/linux/up-input.c:112-126 | Reads of any sizes make the same events and leave the same bytes |
| InputEvents.LastUpdateIsCurrent | src/linux/up-input.c:145-153 | The daemon knows the switch as it was at the last lid event that could be asked about |
| InputEvents.UpdatesByBytes | src/linux/up-input.c:128-153 | Each 24 bytes of a stream tell the daemon the lowest switch if their type and code bytes are 5 and 0 and the switches are known, and else nothing |
| InputEvents.NoLidEventNoUpdate | src/linux/up-input.c:133-143 | Without a lid event the daemon is told nothing |

## Left out

Assumptions:

- Floating-point rounding: `gdouble` and `gfloat` are real numbers, or NaN where a division can give it,
  and constants such as 0.95f and 0.01f are the decimals they are written as.
- Write failures, the locale, NUL bytes in files, and HID reports that are written in part.
- Locks and threads: each operation on the exported daemon is atomic.
- Preconditions that GLib or the kernel guarantees: timers have positive ids that are not in use, only
  live timers fire, and logind alternates between announcing a sleep and announcing its end.

Weaker than the code, or for fewer inputs:

- DecimalText.MilliRoundTrip: the parser is modelled for signs, digits and a point; exponents, hexadecimal
  numbers, infinities and NaN are not, and none of them is ever printed for a finite value.
- DecimalLaws.ParseDoubleOfText: is for numbers with a point that end at a space or with the text.
- HistoryProfile.CollectSamples: percentages outside of the range of a `guint` and negative ones are taken
  modulo 2^32 when they become bins, because C leaves their conversion undefined.
- SupplyRefresh.UpDeviceSupply.Coldplug: capacity, technology, vendor, model and serial number are not
  modelled, nor is the temperature.
- SupplyRefresh.UpDeviceSupply.Publish: the time that C leaves undefined when an energy is not a number is
  taken as the smallest 64-bit integer, which common hosts give.
- PollRegistry.PollDaemon.ResumePoll: requires that polling is paused, as the code does silently; without
  a pause each device would get a second timer.
- PollRegistry.PollDaemon.SetWarningLevel: weak references, which pile up over pauses and resumes without
  effect, are not counted.
- UnknownPoll.UnknownPoller.Refresh: is for batteries, the only kind for which this polling is set up.
- DeviceIndex.UpDeviceList.Insert: requires a path and a device that are not listed, which its one caller
  ensures by looking the path up first.
- DeviceEvents.DeviceBackend.DeviceChanged: the refresh of a known device does not touch the list and is
  not part of this model.
- Suspend.UpBackend.PrepareForSleep: the refreshes on waking up are given by the levels they result in.
- HidppMatching.AnsweredExactly: is for messages that reach to the error code, six bytes, as are
  BufferIsLastHeard and the lemmas of HidppDevice that build on them; what shorter ones do is the subject of
  FirstDecides, AnswersExactly, SuccessExactly and ShortMessagePassesForResponse.
- HidppLaws.LevelIsRead: is for answers of at least seven bytes, as are LightIsRead and
  FeatureBatteryIsRead; bytes behind a shorter one are those of an older message.
- HidppLaws.SentExactly: is for the device numbers 1 to 16, whose registers do not overlap.
- HidppDevice.Device.RefreshModel: a name longer than the buffer ends with the buffer.
- HidppDevice.Device.MapAdd: the bytes of its buffer that the code leaves uninitialised are 0.
- InputBitmap.StrToBitmask: requires a buffer with room for all words; the code writes past it otherwise.
- InputEvents.Input.EventIO: an event has 24 bytes, its numbers are little-endian and a long has 64 bits.

Not modelled:

- D-Bus proxies, method dispatch, client library objects, object paths, icon names, text dumps, the
  command-line tool and `main`.
- Reads of sysfs, ioctls, libusb, libimobiledevice, sysctl and udev: the values read are arguments.
- The other devices: line power, peripherals with a capacity file, BlueZ, WUP, CSR, keyboard backlights,
  wakeups, and the BSD and dummy backends.
- The string tables of kinds, technologies and levels.
- The list of devices managed by the backend for BlueZ, and the choice of the critical action.
