/** The telephony broadcast receiver: a three-field state machine that, when an
    answered incoming call ends, sends one promotional SMS to the caller.

    The Android platform pieces are parameters: the intent's extras (`Intent`),
    the result of the call-log lookup (`callLog`), the shared preferences
    (`Prefs`), and the SMS that `sendTextMessage` is asked to transmit (the
    returned `Option<Sms>`). */
module Receiver {
  import opened Wrappers

  /** `TelephonyManager.CALL_STATE_IDLE`, `_RINGING` and `_OFFHOOK`. */
  datatype CallState = Idle | Ringing | OffHook

  /** The values of `TelephonyManager.EXTRA_STATE_*` carried by the broadcast. */
  const ExtraStateRinging: string := "RINGING"
  const ExtraStateOffHook: string := "OFFHOOK"
  const ExtraStateIdle: string := "IDLE"

  /** Preference keys read by `sendSms`. */
  const KeyEnabled: string := "flutter.auto_send_enabled"
  const KeyMessage: string := "flutter.message"

  /** The two extras `onReceive` reads: the new state and the incoming number,
      each possibly absent. */
  datatype Intent = Intent(state: Option<string>, number: Option<string>)

  /** A value stored in the shared preferences; `OtherValue` stands for the
      numeric and list values a preference file may also hold. */
  datatype PrefValue = BoolValue(b: bool) | StringValue(s: string) | OtherValue
  type Prefs = map<string, PrefValue>

  /** The `ClassCastException` a typed getter throws on a value of another type. */
  datatype PrefsError = ClassCast(key: string)

  /** `SharedPreferences.getBoolean(key, default)`. */
  function GetBoolean(prefs: Prefs, key: string, default: bool): Result<bool, PrefsError>
  {
    if key !in prefs then Success(default)
    else match prefs[key]
      case BoolValue(b) => Success(b)
      case _ => Failure(ClassCast(key))
  }

  /** `SharedPreferences.getString(key, default)`. */
  function GetString(prefs: Prefs, key: string, default: Option<string>): Result<Option<string>, PrefsError>
  {
    if key !in prefs then Success(default)
    else match prefs[key]
      case StringValue(s) => Success(Some(s))
      case _ => Failure(ClassCast(key))
  }

  /** One text message handed to `SmsManager.sendTextMessage`. */
  datatype Sms = Sms(destination: string, text: string)

  /** The configuration under which an SMS goes out, stated on the stored
      values themselves: auto-send is stored as true (absent means false) and
      a non-empty message is stored. */
  predicate GateOpen(prefs: Prefs)
  {
    && KeyEnabled in prefs && prefs[KeyEnabled] == BoolValue(true)
    && KeyMessage in prefs && prefs[KeyMessage].StringValue? && |prefs[KeyMessage].s| > 0
  }

  /** What `sendSms(phoneNumber)` transmits: both settings are read first (a
      wrongly typed value throws, and the exception is swallowed), then the
      disabled and the null-or-empty-message guards return early. */
  function Gate(phoneNumber: string, prefs: Prefs): (r: Option<Sms>)
    ensures r.Some? <==> GateOpen(prefs)
    ensures r.Some? ==> r.value == Sms(phoneNumber, prefs[KeyMessage].s)
  {
    var enabled := GetBoolean(prefs, KeyEnabled, false);
    var message := GetString(prefs, KeyMessage, None);
    if enabled.Failure? || message.Failure? then None
    else if !enabled.value then None
    else if message.value.None? || |message.value.value| == 0 then None
    else Some(Sms(phoneNumber, message.value.value))
  }

  /** The companion-object fields, as one value. */
  datatype Session = Session(lastState: CallState, isIncoming: bool, savedNumber: Option<string>)

  /** The fields' values when the process starts. */
  function Initial(): Session
  {
    Session(Idle, false, None)
  }

  /** The `lastState` recorded for a broadcast's state extra: anything other
      than RINGING or OFFHOOK, null included, counts as IDLE. */
  function StateOf(state: Option<string>): CallState
  {
    if state == Some(ExtraStateRinging) then Ringing
    else if state == Some(ExtraStateOffHook) then OffHook
    else Idle
  }

  /** `savedNumber ?: getLastIncomingNumber()`. */
  function Target(savedNumber: Option<string>, callLog: Option<string>): Option<string>
  {
    if savedNumber.Some? then savedNumber else callLog
  }

  /** The effect of one broadcast: the new fields and the SMS sent, if any. */
  datatype Outcome = Outcome(session: Session, sms: Option<Sms>)

  /** One `onReceive` delivery, as a function of the fields before it. */
  function Step(s: Session, intent: Intent, callLog: Option<string>, prefs: Prefs): (o: Outcome)
    // lastState always reflects the event just seen
    ensures o.session.lastState == StateOf(intent.state)
    // RINGING marks the call incoming and saves its number, possibly null
    ensures intent.state == Some(ExtraStateRinging) ==>
              o.session.isIncoming && o.session.savedNumber == intent.number && o.sms.None?
    // OFFHOOK and unrecognised states change nothing but lastState
    ensures intent.state != Some(ExtraStateRinging) && intent.state != Some(ExtraStateIdle) ==>
              o.session.isIncoming == s.isIncoming && o.session.savedNumber == s.savedNumber && o.sms.None?
    // IDLE always clears the per-call fields
    ensures intent.state == Some(ExtraStateIdle) ==> !o.session.isIncoming && o.session.savedNumber.None?
    // IDLE sends iff the previous state was OFFHOOK of an incoming call,
    // a number is known and the configuration allows it
    ensures intent.state == Some(ExtraStateIdle) ==>
              (o.sms.Some? <==> s.lastState == OffHook && s.isIncoming
                                && Target(s.savedNumber, callLog).Some? && GateOpen(prefs))
    // the saved number wins over the call log
    ensures o.sms.Some? ==> s.savedNumber.Some? ==> o.sms.value.destination == s.savedNumber.value
    ensures o.sms.Some? ==> s.savedNumber.None? ==> callLog == Some(o.sms.value.destination)
    ensures o.sms.Some? ==> GateOpen(prefs) && o.sms.value.text == prefs[KeyMessage].s
  {
    var state := intent.state;
    var next :=
      if state == Some(ExtraStateRinging) then Session(s.lastState, true, intent.number)
      else if state == Some(ExtraStateIdle) then Session(s.lastState, false, None)
      else s;
    var sms :=
      if state == Some(ExtraStateIdle) && s.lastState == OffHook && s.isIncoming then
        var phoneNumber := Target(s.savedNumber, callLog);
        if phoneNumber.Some? then Gate(phoneNumber.value, prefs) else None
      else None;
    Outcome(next.(lastState := StateOf(state)), sms)
  }

  /** The receiver with its process-wide fields. */
  class PhoneCallReceiver {
    var lastState: CallState
    var isIncoming: bool
    var savedNumber: Option<string>

    /** The fields as a `Session`. */
    function Current(): Session
      reads this
    {
      Session(lastState, isIncoming, savedNumber)
    }

    constructor ()
      ensures Current() == Initial()
    {
      lastState := Idle;
      isIncoming := false;
      savedNumber := None;
    }

    /** `onReceive`: updates the fields and returns the SMS it sent. */
    method OnReceive(intent: Intent, callLog: Option<string>, prefs: Prefs) returns (sms: Option<Sms>)
      modifies this
      ensures Outcome(Current(), sms) == Step(old(Current()), intent, callLog, prefs)
    {
      var state := intent.state;
      sms := None;
      if state == Some(ExtraStateRinging) {
        isIncoming := true;
        savedNumber := intent.number;
      } else if state == Some(ExtraStateOffHook) {
      } else if state == Some(ExtraStateIdle) {
        if lastState == OffHook && isIncoming {
          var phoneNumber := Target(savedNumber, callLog);
          if phoneNumber.Some? {
            sms := SendSms(phoneNumber.value, prefs);
          }
        }
        isIncoming := false;
        savedNumber := None;
      }
      if state == Some(ExtraStateRinging) {
        lastState := Ringing;
      } else if state == Some(ExtraStateOffHook) {
        lastState := OffHook;
      } else {
        lastState := Idle;
      }
    }

    /** `sendSms`: reads the configuration, returns early when it forbids
        sending, and otherwise transmits the message to `phoneNumber`. */
    method SendSms(phoneNumber: string, prefs: Prefs) returns (sms: Option<Sms>)
      ensures sms == Gate(phoneNumber, prefs)
    {
      sms := None;
      var enabled := GetBoolean(prefs, KeyEnabled, false);
      if enabled.Failure? {
        return;
      }
      var message := GetString(prefs, KeyMessage, None);
      if message.Failure? {
        return;
      }
      if !enabled.value {
        return;
      }
      if message.value.None? || |message.value.value| == 0 {
        return;
      }
      sms := Some(Sms(phoneNumber, message.value.value));
    }
  }
}
