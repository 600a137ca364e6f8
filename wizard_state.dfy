/**
 The state shared by every step of the eSIM download wizard, and its
 field-by-field persistence into a `Bundle` across process death.
 */
module WizardState {
  import opened Optional
  import opened Bundles

  /** The failure reported by the profile-download engine, kept verbatim for a later step. */
  datatype DownloadError = DownloadError(message: string)

  /** The fields of a `DownloadWizardState` at one moment. */
  datatype StateValue = StateValue(
    currentStepFragmentClassName: Option<string>,
    selectedLogicalSlot: int,
    smdp: string,
    matchingId: Option<string>,
    confirmationCode: Option<string>,
    imei: Option<string>,
    downloadStarted: bool,
    downloadTaskID: int,
    downloadError: Option<DownloadError>)

  const KeyStepClassName := "currentStepFragmentClassName"
  const KeySlot := "selectedLogicalSlot"
  const KeySmdp := "smdp"
  const KeyMatchingId := "matchingId"
  const KeyConfirmationCode := "confirmationCode"
  const KeyImei := "imei"
  const KeyDownloadStarted := "downloadStarted"
  const KeyDownloadTaskID := "downloadTaskID"

  /** The keys the activity writes when it saves its state; the download error has none. */
  const SavedKeys: set<string> := {KeyStepClassName, KeySlot, KeySmdp, KeyMatchingId,
                                   KeyConfirmationCode, KeyImei, KeyDownloadStarted, KeyDownloadTaskID}

  /**
   The state a freshly created activity starts from: the slot comes from the
   launching intent's extras (0 when it carries none), every other field is empty.
   */
  function InitialState(extras: Bundle): (s: StateValue)
    ensures s.selectedLogicalSlot == if KeySlot in extras && extras[KeySlot].IntValue? then extras[KeySlot].int32 else 0
    ensures s.currentStepFragmentClassName.None? && s.smdp == ""
    ensures s.matchingId.None? && s.confirmationCode.None? && s.imei.None?
    ensures !s.downloadStarted && s.downloadTaskID == -1 && s.downloadError.None?
  {
    StateValue(None, GetInt(extras, KeySlot, 0), "", None, None, None, false, -1, None)
  }

  /**
   onSaveInstanceState: writes eight of the nine fields under their own keys
   into a bundle that may already hold other entries, which it keeps.
   */
  function Save(out: Bundle, s: StateValue): (r: Bundle)
    ensures r.Keys == out.Keys + SavedKeys
    ensures forall k :: k in out && k !in SavedKeys ==> r[k] == out[k]
    ensures r[KeyConfirmationCode] == StringValue(s.confirmationCode)
  {
    out[KeyStepClassName := StringValue(s.currentStepFragmentClassName)]
       [KeySlot := IntValue(s.selectedLogicalSlot)]
       [KeySmdp := StringValue(Some(s.smdp))]
       [KeyMatchingId := StringValue(s.matchingId)]
       [KeyConfirmationCode := StringValue(s.confirmationCode)]
       [KeyImei := StringValue(s.imei)]
       [KeyDownloadStarted := BooleanValue(s.downloadStarted)]
       [KeyDownloadTaskID := LongValue(s.downloadTaskID)]
  }

  /** The bundle holds a non-null string under `key`, which is when `getString` does not fall back. */
  predicate HoldsString(b: Bundle, key: string) {
    key in b && b[key].StringValue? && b[key].str.Some?
  }

  /**
   onRestoreInstanceState: reads seven fields back, each falling back to its
   current value; the confirmation code and the download error are never read.
   */
  function Restore(b: Bundle, s: StateValue): (r: StateValue)
    ensures r.confirmationCode == s.confirmationCode && r.downloadError == s.downloadError
    ensures b.Keys !! SavedKeys ==> r == s
    ensures r.currentStepFragmentClassName ==
              if HoldsString(b, KeyStepClassName) then b[KeyStepClassName].str else s.currentStepFragmentClassName
    ensures r.selectedLogicalSlot == if KeySlot in b && b[KeySlot].IntValue? then b[KeySlot].int32 else s.selectedLogicalSlot
    ensures r.smdp == if HoldsString(b, KeySmdp) then b[KeySmdp].str.value else s.smdp
    ensures r.matchingId == if HoldsString(b, KeyMatchingId) then b[KeyMatchingId].str else s.matchingId
    ensures r.imei == if HoldsString(b, KeyImei) then b[KeyImei].str else s.imei
    ensures r.downloadStarted ==
              if KeyDownloadStarted in b && b[KeyDownloadStarted].BooleanValue? then b[KeyDownloadStarted].flag else s.downloadStarted
    ensures r.downloadTaskID ==
              if KeyDownloadTaskID in b && b[KeyDownloadTaskID].LongValue? then b[KeyDownloadTaskID].int64 else s.downloadTaskID
  {
    s.(currentStepFragmentClassName := GetString(b, KeyStepClassName, s.currentStepFragmentClassName),
       selectedLogicalSlot := GetInt(b, KeySlot, s.selectedLogicalSlot),
       smdp := GetString(b, KeySmdp, Some(s.smdp)).value,
       matchingId := GetString(b, KeyMatchingId, s.matchingId),
       imei := GetString(b, KeyImei, s.imei),
       downloadStarted := GetBoolean(b, KeyDownloadStarted, s.downloadStarted),
       downloadTaskID := GetLong(b, KeyDownloadTaskID, s.downloadTaskID))
  }

  /** The nullable field `saved`, restored over `current`: a saved null reads back as the current value. */
  function Survives<T>(saved: Option<T>, current: Option<T>): Option<T> {
    if saved.Some? then saved else current
  }

  /**
   Save then restore, field by field: the non-null fields come back, a
   nullable field comes back unless it was null, and the confirmation code
   and download error keep the values of the state restored into.
   */
  lemma RestoreAfterSave(out: Bundle, s: StateValue, t: StateValue)
    ensures Restore(Save(out, s), t) ==
      t.(currentStepFragmentClassName := Survives(s.currentStepFragmentClassName, t.currentStepFragmentClassName),
         selectedLogicalSlot := s.selectedLogicalSlot,
         smdp := s.smdp,
         matchingId := Survives(s.matchingId, t.matchingId),
         imei := Survives(s.imei, t.imei),
         downloadStarted := s.downloadStarted,
         downloadTaskID := s.downloadTaskID)
  {
  }

  /**
   Recreation after process death: restoring a saved state into the state of a
   freshly created activity gives back every field except the confirmation
   code and the download error, which are left empty.
   */
  lemma RestoreIntoFreshState(out: Bundle, s: StateValue, extras: Bundle)
    ensures Restore(Save(out, s), InitialState(extras)) == s.(confirmationCode := None, downloadError := None)
  {
  }

  /** The confirmation code is written to the bundle and yet lost on recreation. */
  lemma ConfirmationCodeSavedButLost(out: Bundle, s: StateValue, extras: Bundle)
    requires s.confirmationCode.Some?
    ensures Save(out, s)[KeyConfirmationCode] == StringValue(s.confirmationCode)
    ensures Restore(Save(out, s), InitialState(extras)).confirmationCode != s.confirmationCode
  {
  }

  /** The wizard's shared state: a record whose fields the activity and its steps update in place. */
  class DownloadWizardState {
    var currentStepFragmentClassName: Option<string>
    var selectedLogicalSlot: int
    var smdp: string
    var matchingId: Option<string>
    var confirmationCode: Option<string>
    var imei: Option<string>
    var downloadStarted: bool
    var downloadTaskID: int
    var downloadError: Option<DownloadError>

    constructor (currentStepFragmentClassName: Option<string>, selectedLogicalSlot: int, smdp: string,
                 matchingId: Option<string>, confirmationCode: Option<string>, imei: Option<string>,
                 downloadStarted: bool, downloadTaskID: int, downloadError: Option<DownloadError>)
      ensures Value() == StateValue(currentStepFragmentClassName, selectedLogicalSlot, smdp, matchingId,
                                    confirmationCode, imei, downloadStarted, downloadTaskID, downloadError)
    {
      this.currentStepFragmentClassName := currentStepFragmentClassName;
      this.selectedLogicalSlot := selectedLogicalSlot;
      this.smdp := smdp;
      this.matchingId := matchingId;
      this.confirmationCode := confirmationCode;
      this.imei := imei;
      this.downloadStarted := downloadStarted;
      this.downloadTaskID := downloadTaskID;
      this.downloadError := downloadError;
    }

    function Value(): StateValue
      reads this
    {
      StateValue(currentStepFragmentClassName, selectedLogicalSlot, smdp, matchingId,
                 confirmationCode, imei, downloadStarted, downloadTaskID, downloadError)
    }

    /** A step writing the fields it owns (its `beforeNext` hook). */
    method Assign(v: StateValue)
      modifies this
      ensures Value() == v
    {
      currentStepFragmentClassName, selectedLogicalSlot, smdp := v.currentStepFragmentClassName, v.selectedLogicalSlot, v.smdp;
      matchingId, confirmationCode, imei := v.matchingId, v.confirmationCode, v.imei;
      downloadStarted, downloadTaskID, downloadError := v.downloadStarted, v.downloadTaskID, v.downloadError;
    }
  }
}
