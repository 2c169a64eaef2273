# JoU-SMS call receiver and in-app log, in Dafny

This project models two parts of the JoU-SMS Android app.

**The phone-call receiver.** `PhoneCallReceiver.onReceive` runs on every telephony state broadcast. It keeps three process-wide fields: `lastState`, `isIncoming` and `savedNumber`.
- A RINGING broadcast marks the call as incoming and saves its number.
- OFFHOOK changes nothing but `lastState`.
- An IDLE broadcast sends one promotional SMS when the call was answered, that is, when the previous state was OFFHOOK and a RINGING came since the last IDLE. The message goes to the saved number, or to the call log's most recent number when none was saved. `sendSms` then checks the shared preferences: auto-send must be on (it defaults to off) and the stored message must be non-null and non-empty. Every IDLE then clears the per-call fields.

The repository holds two copies of this receiver, `com/joyou/sms` and `com/joyou/autopromosms/auto_promo_sms`. They are the same line for line except for their logging calls, and one model (`receiver.dfy`) covers both.
- `Receiver.Step` is the pure specification of one broadcast.
- The class `Receiver.PhoneCallReceiver` has the three fields. Its `OnReceive` method updates them in place and is proved equal to `Step`.
- `call_runs.dfy` proves properties of whole broadcast sequences.

**The log manager.** `LogManager` is a FIFO queue of log entries, capped at 500 (`MAX_LOGS`). `log` appends an entry and then polls the head while the queue is over the cap. The queries are: the last N entries, the entries newer than a timestamp, a formatted dump with a placeholder for the empty case, `clear` and `size`. `Logging.LogManager` keeps the queue as a `seq` field, and its `Log` method runs the same eviction loop.

Platform pieces become parameters:
- The broadcast extras become `Intent`.
- The result of the call-log lookup becomes `callLog: Option<string>`.
- `SharedPreferences` becomes a map from keys to typed values. A getter that meets a value of another type fails, just as Android's `ClassCastException` does, and `sendSms` swallows that failure, so nothing is sent.
- The SMS handed to `SmsManager.sendTextMessage` is the returned `Option<Sms>`.
- `System.currentTimeMillis()` becomes `now`, and the date formatter becomes `timeStr`.

Facts about the code that the model keeps:
- The receiver has one trigger point, OFFHOOK then IDLE. There is no ring-time trigger, throttle window or send history.
- An empty saved number `""` is not null, so it is used as the destination. No check rejects an empty number.
- The number extra of OFFHOOK and IDLE broadcasts is ignored.

## Model

| member | source | states |
|---|---|---|
| Receiver.Gate | android/app/src/main/kotlin/com/joyou/sms/PhoneCallReceiver.kt:127-151 | an SMS goes out iff auto-send is stored as true (absent means false) and a non-empty message is stored; it carries that message to the given number; a wrongly typed preference means no send |
| Receiver.PhoneCallReceiver.SendSms | android/app/src/main/kotlin/com/joyou/autopromosms/auto_promo_sms/PhoneCallReceiver.kt:111-168 | the early-return guards transmit exactly what `Gate` does: the stored message to the given number when the stored configuration allows, nothing otherwise |
| Receiver.Step | android/app/src/main/kotlin/com/joyou/sms/PhoneCallReceiver.kt:24-80 | per broadcast: lastState becomes RINGING/OFFHOOK/IDLE (IDLE for unknown or null); RINGING sets isIncoming and overwrites savedNumber, sends nothing; OFFHOOK and unknown states leave isIncoming/savedNumber alone; IDLE clears them and sends iff the old lastState was OFFHOOK, isIncoming held, a number is known and the gate is open; destination is savedNumber, else the call log |
| Receiver.PhoneCallReceiver.OnReceive | android/app/src/main/kotlin/com/joyou/autopromosms/auto_promo_sms/PhoneCallReceiver.kt:24-80 | the in-place update of the three fields and the SMS sent are exactly those of `Step` from the old fields |
| Receiver.PhoneCallReceiver.constructor | android/app/src/main/kotlin/com/joyou/sms/PhoneCallReceiver.kt:19-21 | the fields start as IDLE, not incoming, no saved number |
| CallRuns.SessionAfter | android/app/src/main/kotlin/com/joyou/autopromosms/auto_promo_sms/PhoneCallReceiver.kt:30-79 | after any run, lastState reflects the last broadcast, and isIncoming/savedNumber are set by the last RINGING (its number), cleared by the last IDLE, or kept from the start when there is neither |
| CallRuns.IdleSendsIff | android/app/src/main/kotlin/com/joyou/sms/PhoneCallReceiver.kt:44-66 | from a fresh process, an IDLE sends iff the previous broadcast was OFFHOOK, a RINGING came after the last IDLE and that RINGING's number or the IDLE-time call log gives a number, and the gate is open |
| CallRuns.SendsBoundedByRings | android/app/src/main/kotlin/com/joyou/sms/PhoneCallReceiver.kt:31-70 | sends in any run, plus one if still armed, are at most the RINGINGs plus one if armed at the start |
| CallRuns.AtMostOneSendPerRing | android/app/src/main/kotlin/com/joyou/autopromosms/auto_promo_sms/PhoneCallReceiver.kt:31-70 | a fresh process never sends more messages than RINGING broadcasts it received |
| CallRuns.DisabledNeverSends | android/app/src/main/kotlin/com/joyou/autopromosms/auto_promo_sms/PhoneCallReceiver.kt:128-151 | with the gate closed on every broadcast, no broadcast of any run sends |
| CallRuns.AnsweredCallSendsOnce | android/app/src/main/kotlin/com/joyou/sms/PhoneCallReceiver.kt:31-79 | from any state and for any OFFHOOK/IDLE broadcasts (any number extra, call log or preferences), RINGING(a), OFFHOOK, IDLE sends exactly one SMS, to a with the message configured at IDLE, when the gate is then open and none otherwise, and ends in the initial state |
| CallRuns.AnsweredUnknownCallerUsesCallLog | android/app/src/main/kotlin/com/joyou/sms/PhoneCallReceiver.kt:54-61 | with no number on RINGING, the answered call is messaged at the number the call log gives at IDLE, and nothing is sent when it gives none or the gate is closed; the fields end in the initial state |
| CallRuns.MissedCallSendsNothing | android/app/src/main/kotlin/com/joyou/autopromosms/auto_promo_sms/PhoneCallReceiver.kt:44-70 | from any state and for any RINGING and IDLE broadcasts, RINGING then IDLE sends nothing and ends in the initial state |
| CallRuns.OutgoingCallSendsNothing | android/app/src/main/kotlin/com/joyou/autopromosms/auto_promo_sms/PhoneCallReceiver.kt:39-66 | for any OFFHOOK and IDLE broadcasts, OFFHOOK then IDLE without a pending incoming call sends nothing and ends in the initial state |
| CallRuns.RepeatedIdleSendsNothing | android/app/src/main/kotlin/com/joyou/sms/PhoneCallReceiver.kt:50-79 | a second consecutive IDLE never sends, so a duplicated IDLE broadcast cannot double-send |
| CallRuns.RingingWithoutNumberForgetsCaller | android/app/src/main/kotlin/com/joyou/autopromosms/auto_promo_sms/PhoneCallReceiver.kt:31-61 | RINGING(any), RINGING(null), OFFHOOK, IDLE sends only at IDLE, and then to the number the call log gives at IDLE (nothing when it gives none or the gate is closed): the first number is forgotten |
| Logging.LogManager.constructor | android/app/src/main/kotlin/com/joyou/autopromosms/auto_promo_sms/LogManager.kt:12 | the queue starts empty |
| Logging.LogManager.Log | android/app/src/main/kotlin/com/joyou/autopromosms/auto_promo_sms/LogManager.kt:32-46 | the queue becomes the last min(500, n+1) entries of the old queue plus the new entry, and holds at most 500 |
| Logging.LogEvictsOldestFirst | android/app/src/main/kotlin/com/joyou/autopromosms/auto_promo_sms/LogManager.kt:40-45 | after logging, the new entry is last, and an old entry survives iff fewer than 500 entries follow it, at its shifted position |
| Logging.LogManager.Debug | android/app/src/main/kotlin/com/joyou/autopromosms/auto_promo_sms/LogManager.kt:51-53 | logs the entry at level DEBUG |
| Logging.LogManager.Info | android/app/src/main/kotlin/com/joyou/autopromosms/auto_promo_sms/LogManager.kt:58-60 | logs the entry at level INFO |
| Logging.LogManager.Warn | android/app/src/main/kotlin/com/joyou/autopromosms/auto_promo_sms/LogManager.kt:65-67 | logs the entry at level WARN |
| Logging.LogManager.Error | android/app/src/main/kotlin/com/joyou/autopromosms/auto_promo_sms/LogManager.kt:72-74 | logs the entry at level ERROR |
| Logging.LogManager.GetRecentLogs | android/app/src/main/kotlin/com/joyou/autopromosms/auto_promo_sms/LogManager.kt:79-81 | fails iff count is negative; otherwise the last min(count, size) entries, a suffix of the queue in queue order |
| Logging.LogManager.GetRecentLogsFormatted | android/app/src/main/kotlin/com/joyou/autopromosms/auto_promo_sms/LogManager.kt:86-93 | fails iff count is negative; the placeholder iff nothing is selected; otherwise the selected entries formatted and joined by newlines |
| Logging.Format | android/app/src/main/kotlin/com/joyou/autopromosms/auto_promo_sms/LogManager.kt:23-26 | a formatted entry is non-empty and starts with '[', which keeps it apart from the placeholder |
| Logging.Since | android/app/src/main/kotlin/com/joyou/autopromosms/auto_promo_sms/LogManager.kt:99 | the filter keeps exactly the entries with timestamp strictly greater than t, and never grows the list |
| Logging.SinceCounts | android/app/src/main/kotlin/com/joyou/autopromosms/auto_promo_sms/LogManager.kt:99 | the filter keeps every entry newer than t with its full multiplicity and drops every other entry |
| Logging.LogManager.GetLogsSince | android/app/src/main/kotlin/com/joyou/autopromosms/auto_promo_sms/LogManager.kt:98-100 | returns exactly the stored entries newer than t, each as many times as it is stored |
| Logging.SinceAppend | android/app/src/main/kotlin/com/joyou/autopromosms/auto_promo_sms/LogManager.kt:98-100 | filtering distributes over concatenation, so the result keeps queue order |
| Logging.LoggedEntryIsSinceEarlier | android/app/src/main/kotlin/com/joyou/autopromosms/auto_promo_sms/LogManager.kt:40-45 | an entry just logged with a timestamp after t is returned by a query since t |
| Logging.LogManager.Clear | android/app/src/main/kotlin/com/joyou/autopromosms/auto_promo_sms/LogManager.kt:105-108 | afterwards the queue is exactly one INFO entry tagged "LogManager" |
| Logging.LogManager.Size | android/app/src/main/kotlin/com/joyou/autopromosms/auto_promo_sms/LogManager.kt:113-115 | the number of stored entries, at most 500 |

## Left out

- SMS transport failure: an exception thrown by `sendTextMessage` is caught and changes no receiver field. The returned `Option<Sms>` means "transmission requested", and delivery is not modelled.
- The call-log query (`getLastIncomingNumber`) is a platform content-resolver query, so it is not modelled. Its result, possibly null, is the `callLog` parameter. That query sorts by date and does not filter by call type, so the parameter stands for whatever number it returns.
- The shared-preferences file and the `prefs.all.keys` dump are platform storage and diagnostics, so they are not modelled. Only the two keys `sendSms` reads are modelled.
- Logging statements (`Log.d` and `print`) in the receivers have no effect on behaviour, so they are not modelled.
- `LogManager` concurrency is not modelled: `ConcurrentLinkedQueue` and the non-atomic size/poll loop are modelled sequentially.
- Kotlin's `Long`/`Int` widths are not modelled, because timestamps and counts are only compared, never computed with.
- The default argument `count = 100` of the two recent-logs queries is not modelled: callers pass the count.
- The date-time text produced by `SimpleDateFormat` is not modelled. It is the `timeStr` parameter.
- `SmsBackgroundService.kt` and the three `MainActivity.kt` files are platform plumbing, not part of this model: the foreground service, the method-channel routing, receiver registration and the thin `sendSMS` and outgoing-call-log wrappers.
