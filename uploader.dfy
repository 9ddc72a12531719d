/** The file uploader widget: the handlers that run the checks over a
    selection, choose one of the three outcomes and set the container
    status, the icon, the submit button and the status report; and the
    reset, submit and drag handlers. */
module Uploader {

  import opened Options
  import opened Validator
  import opened Report

  /** The status class of the upload container. */
  datatype ContainerStatus = Standard | Focused | Success | Warning

  /** The variant of the upload icon. */
  datatype Icon = Upload | Uploaded | UploadError

  /** The two requests the handlers make of the submit button. */
  datatype ButtonCommand = Enable | Disable

  /** The submit button: whether it has the `disabled` attribute, and its
      class name. */
  datatype Button = Button(disabled: bool, className: string)

  /** Everything the handlers show: container status, icon, submit button
      and status report. */
  datatype UiState = UiState(status: ContainerStatus, icon: Icon, button: Button, report: seq<Section>)

  /** The three outcomes of checking a non-empty selection. */
  datatype Outcome = Mixed | AllError | AllSuccess

  const MIXED_INVALID_SUMMARY: string := "The following files have errors and will not be uploaded:"
  const MIXED_VALID_SUMMARY: string := "The following files are valid and are ready to be uploaded:"
  const SUCCESS_SUMMARY: string := "The following files are ready to be uploaded:"
  const ERROR_SUMMARY: string := "The following files have errors:"
  const NO_FILES_SUMMARY: string := "No files selected"
  const THANK_YOU_SUMMARY: string :=
    "Thank you for using the file uploader. Your files have not been sent anywhere and the upload form has been reset for you to try again."
  const DISABLED_CLASS: string := "btn--disabled"
  const PRIMARY_CLASS: string := "btn--primary"

  /** The submit button after a request: `Disable` always disables it and
      gives it the disabled class; `Enable` acts only on a disabled button. */
  function ButtonAfter(cmd: ButtonCommand, b: Button): (r: Button)
    ensures cmd == Disable ==> r.disabled && r.className == DISABLED_CLASS
    ensures cmd == Enable ==> !r.disabled
    ensures cmd == Enable && b.disabled ==> r == Button(false, PRIMARY_CLASS)
    ensures cmd == Enable && !b.disabled ==> r == b
  {
    match cmd
    case Disable => Button(true, DISABLED_CLASS)
    case Enable => if b.disabled then Button(false, PRIMARY_CLASS) else b
  }

  /** A second identical request leaves the button as the first left it. */
  lemma ButtonIdempotent(cmd: ButtonCommand, b: Button)
    ensures ButtonAfter(cmd, ButtonAfter(cmd, b)) == ButtonAfter(cmd, b)
  {
  }

  /** The outcome chosen from the sizes of the two lists: both non-empty is
      mixed, only errors is all-error, anything else all-success. */
  function OutcomeOf(invalidCount: nat, validCount: nat): (o: Outcome)
    ensures o == Mixed <==> invalidCount > 0 && validCount > 0
    ensures o == AllError <==> invalidCount > 0 && validCount == 0
    ensures o == AllSuccess <==> invalidCount == 0
  {
    if invalidCount > 0 && validCount > 0 then Mixed
    else if invalidCount > 0 && validCount == 0 then AllError
    else AllSuccess
  }

  /** What the mixed report shows. */
  function MixedUi(invalid: seq<UploadFile>, valid: seq<UploadFile>, b: Button): UiState
    reads invalid, valid
  {
    UiState(Standard, Upload, ButtonAfter(Enable, b),
            [Section(ThemeWarning, MIXED_INVALID_SUMMARY, Lines(invalid)),
             Section(ThemeSuccess, MIXED_VALID_SUMMARY, Lines(valid))])
  }

  /** What the all-error report shows. */
  function ErrorUi(invalid: seq<UploadFile>, b: Button): UiState
    reads invalid
  {
    UiState(Warning, UploadError, ButtonAfter(Disable, b),
            [Section(ThemeWarning, ERROR_SUMMARY, Lines(invalid))])
  }

  /** What the all-success report shows. */
  function SuccessUi(valid: seq<UploadFile>, b: Button): UiState
    reads valid
  {
    UiState(Success, Uploaded, ButtonAfter(Enable, b),
            [Section(ThemeSuccess, SUCCESS_SUMMARY, Lines(valid))])
  }

  /** The container status each outcome sets. */
  function StatusOf(o: Outcome): ContainerStatus
  {
    match o
    case Mixed => Standard
    case AllError => Warning
    case AllSuccess => Success
  }

  /** The icon each outcome sets. */
  function IconOf(o: Outcome): Icon
  {
    match o
    case Mixed => Upload
    case AllError => UploadError
    case AllSuccess => Uploaded
  }

  /** The request each outcome makes of the submit button. */
  function CommandOf(o: Outcome): ButtonCommand
  {
    if o == AllError then Disable else Enable
  }

  /** What the check of a selection shows, given its files with errors,
      its valid files and the submit button before. */
  function OutcomeUi(invalid: seq<UploadFile>, valid: seq<UploadFile>, b: Button): (u: UiState)
    reads invalid, valid
    ensures var o := OutcomeOf(|invalid|, |valid|);
      u.status == StatusOf(o) && u.icon == IconOf(o) && u.button == ButtonAfter(CommandOf(o), b)
  {
    match OutcomeOf(|invalid|, |valid|)
    case Mixed => MixedUi(invalid, valid, b)
    case AllError => ErrorUi(invalid, b)
    case AllSuccess => SuccessUi(valid, b)
  }

  /** Showing an outcome a second time, from the button the first showing
      left, shows the same again. */
  lemma OutcomeUiStable(invalid: seq<UploadFile>, valid: seq<UploadFile>, b: Button)
    ensures OutcomeUi(invalid, valid, OutcomeUi(invalid, valid, b).button) == OutcomeUi(invalid, valid, b)
  {
    ButtonIdempotent(CommandOf(OutcomeOf(|invalid|, |valid|)), b);
  }

  /** What the reset shows. */
  function ResetUi(b: Button): UiState
  {
    UiState(Standard, Upload, ButtonAfter(Enable, b), [Section(ThemeStandard, NO_FILES_SUMMARY, [])])
  }

  /** What a submit with a selection shows: the button is left as it is. */
  function ThankYouUi(b: Button): UiState
  {
    UiState(Standard, Upload, b, [Section(ThemeSuccess, THANK_YOU_SUMMARY, [])])
  }

  /** The number of list items in a report. */
  function ItemCount(report: seq<Section>): nat
  {
    if report == [] then 0 else |report[0].items| + ItemCount(report[1..])
  }

  /** The outcome the check of a selection chooses. */
  function CheckOutcome(files: seq<UploadFile>): Outcome
    reads files
  {
    OutcomeOf(|Select(files, true)|, |Select(files, false)|)
  }

  /** After the check of a non-empty selection the submit button is
      disabled exactly when every file has an error (the button shown is
      `OutcomeUi(..).button`, which is this one). */
  lemma CheckedSubmitButton(files: seq<UploadFile>, b: Button)
    requires |files| > 0
    ensures ButtonAfter(CommandOf(CheckOutcome(files)), b).disabled
      <==> forall i :: 0 <= i < |files| ==> HasError(files[i])
  {
    PartitionCovers(files);
    SelectEmptyIff(files, true);
    SelectEmptyIff(files, false);
  }

  /** After the check of a selection the container shows success exactly
      when no file has an error, a warning exactly when there are files and
      all have errors, and the standard status exactly when there are files
      of both kinds; each with its icon (the status and icon shown are
      `OutcomeUi(..).status` and `OutcomeUi(..).icon`, which are these). */
  lemma CheckedStatus(files: seq<UploadFile>)
    ensures var o := CheckOutcome(files);
      && (StatusOf(o) == Success <==> forall i :: 0 <= i < |files| ==> !HasError(files[i]))
      && (StatusOf(o) == Warning <==> |files| > 0 && forall i :: 0 <= i < |files| ==> HasError(files[i]))
      && (StatusOf(o) == Standard <==>
           (exists i :: 0 <= i < |files| && HasError(files[i])) && (exists j :: 0 <= j < |files| && !HasError(files[j])))
      && (IconOf(o) == Uploaded <==> StatusOf(o) == Success)
      && (IconOf(o) == UploadError <==> StatusOf(o) == Warning)
  {
    PartitionCovers(files);
    SelectEmptyIff(files, true);
    SelectEmptyIff(files, false);
  }

  /** For a non-empty selection the valid list is non-empty exactly when
      the outcome is not all-error: the all-success branch always has a
      valid file, and `filesToFormData` is replaced in every outcome but
      all-error. */
  lemma CheckedFormData(files: seq<UploadFile>)
    requires |files| > 0
    ensures |Select(files, false)| > 0 <==> CheckOutcome(files) != AllError
    ensures CheckOutcome(files) == AllSuccess ==> Select(files, false) == files
  {
    PartitionCovers(files);
    if CheckOutcome(files) == AllSuccess {
      SelectEmptyIff(files, true);
      SelectUniform(files, false);
    }
  }

  /** The report of a checked selection of `n` files lists between `n` and
      `2n` items. */
  lemma {:induction false} CheckedReportSize(files: seq<UploadFile>, b: Button)
    ensures var u := OutcomeUi(Select(files, true), Select(files, false), b);
      |files| <= ItemCount(u.report) <= 2 * |files|
  {
    var invalid, valid := Select(files, true), Select(files, false);
    PartitionCovers(files);
    LinesBounds(invalid);
    LinesBounds(valid);
    if |invalid| > 0 && |valid| > 0 {
      var r := MixedUi(invalid, valid, b).report;
      assert ItemCount(r) == |Lines(invalid)| + |Lines(valid)| by {
        assert ItemCount(r[1..][1..]) == 0;
      }
    } else if |invalid| > 0 {
      assert ItemCount(ErrorUi(invalid, b).report) == |Lines(invalid)|;
    } else {
      assert ItemCount(SuccessUi(valid, b).report) == |Lines(valid)|;
    }
  }

  /** When every file of a selection is valid, its report is the success
      section listing each file with its size, in order. */
  lemma AllValidReport(files: seq<UploadFile>, b: Button)
    requires |files| > 0
    requires forall i :: 0 <= i < |files| ==> !HasError(files[i])
    ensures var u := OutcomeUi(Select(files, true), Select(files, false), b);
      && |u.report| == 1 && u.report[0].theme == ThemeSuccess
      && |u.report[0].items| == |files|
      && forall i :: 0 <= i < |files| ==> u.report[0].items[i] == ReadyLine(files[i].name, files[i].size)
  {
    SelectUniform(files, false);
    LinesOfValid(files);
  }

  /** The widget: the attributes of the file input, the selection, the
      files kept for the form data and what is shown. */
  class Widget {
    /** The `accept` attribute of the file input. */
    const accept: Option<string>
    /** The `data-file-size` attribute of the file input. */
    const sizeAttr: Option<string>

    var fileList: seq<UploadFile>
    var filesToFormData: seq<UploadFile>
    var containerStatus: ContainerStatus
    var icon: Icon
    var submitDisabled: bool
    var submitClass: string
    var report: seq<Section>

    function Btn(): Button
      reads this
    {
      Button(submitDisabled, submitClass)
    }

    function Ui(): UiState
      reads this
    {
      UiState(containerStatus, icon, Btn(), report)
    }

    /** A widget over a page whose markup shows `initial`. */
    constructor (accept: Option<string>, sizeAttr: Option<string>, initial: UiState)
      ensures this.accept == accept && this.sizeAttr == sizeAttr
      ensures fileList == [] && filesToFormData == []
      ensures Ui() == initial
    {
      this.accept := accept;
      this.sizeAttr := sizeAttr;
      fileList := [];
      filesToFormData := [];
      containerStatus := initial.status;
      icon := initial.icon;
      submitDisabled := initial.button.disabled;
      submitClass := initial.button.className;
      report := initial.report;
    }

    /** Disables or enables the submit button. */
    method SubmitBtnStateChange(cmd: ButtonCommand)
      modifies this`submitDisabled, this`submitClass
      ensures Btn() == ButtonAfter(cmd, old(Btn()))
    {
      if cmd == Disable {
        submitDisabled := true;
        submitClass := DISABLED_CLASS;
      } else if cmd == Enable && submitDisabled {
        submitDisabled := false;
        submitClass := PRIMARY_CLASS;
      }
    }

    /** Sets the container status and the icon. */
    method SetStatusElements(status: ContainerStatus, variant: Icon)
      modifies this`containerStatus, this`icon
      ensures containerStatus == status && icon == variant
    {
      containerStatus := status;
      icon := variant;
    }

    /** Empties the status report, one section at a time. */
    method RemoveChildElements()
      modifies this`report
      ensures report == []
    {
      while report != []
        decreases |report|
      {
        report := report[1..];
      }
    }

    /** Appends a status holder with the given theme and summary and the
      list of the files' lines to the report. */
    method AppendStatusHolder(theme: Theme, summary: string, files: seq<UploadFile>)
      modifies this`report
      ensures report == old(report) + [Section(theme, summary, Lines(files))]
    {
      var items := CreateStatusMessageList(files);
      report := report + [Section(theme, summary, items)];
    }

    /** The mixed report: errors first, then the valid files. */
    method FileUploadReporting(invalid: seq<UploadFile>, valid: seq<UploadFile>)
      modifies this`submitDisabled, this`submitClass, this`containerStatus, this`icon, this`report
      ensures Ui() == MixedUi(invalid, valid, old(Btn()))
    {
      SubmitBtnStateChange(Enable);
      RemoveChildElements();
      SetStatusElements(Standard, Upload);
      AppendStatusHolder(ThemeWarning, MIXED_INVALID_SUMMARY, invalid);
      AppendStatusHolder(ThemeSuccess, MIXED_VALID_SUMMARY, valid);
    }

    /** The all-success report. */
    method FileUploadSuccess(valid: seq<UploadFile>)
      modifies this`submitDisabled, this`submitClass, this`containerStatus, this`icon, this`report
      ensures Ui() == SuccessUi(valid, old(Btn()))
    {
      SubmitBtnStateChange(Enable);
      RemoveChildElements();
      SetStatusElements(Success, Uploaded);
      AppendStatusHolder(ThemeSuccess, SUCCESS_SUMMARY, valid);
    }

    /** The all-error report. */
    method FileUploadError(invalid: seq<UploadFile>)
      modifies this`submitDisabled, this`submitClass, this`containerStatus, this`icon, this`report
      ensures Ui() == ErrorUi(invalid, old(Btn()))
    {
      SubmitBtnStateChange(Disable);
      RemoveChildElements();
      SetStatusElements(Warning, UploadError);
      AppendStatusHolder(ThemeWarning, ERROR_SUMMARY, invalid);
    }

    /** The reset: button enabled, standard status and "No files selected". */
    method FileUploadStatusReset()
      modifies this`submitDisabled, this`submitClass, this`containerStatus, this`icon, this`report
      ensures Ui() == ResetUi(old(Btn()))
    {
      SubmitBtnStateChange(Enable);
      RemoveChildElements();
      SetStatusElements(Standard, Upload);
      report := report + [Section(ThemeStandard, NO_FILES_SUMMARY, [])];
    }

    /** Runs both checks over the files, keeps the valid ones for the form
      data when there are any, and shows the outcome. */
    method FileUploadCheck(files: seq<UploadFile>)
      modifies this`filesToFormData, this`submitDisabled, this`submitClass, this`containerStatus, this`icon, this`report
      modifies files
      ensures forall f :: f in files ==>
        && f.sizeError == SizeMarker(f.size, old(f.sizeError), sizeAttr)
        && f.formatError == FormatMarker(f.name, old(f.formatError), accept)
      ensures filesToFormData == if |Select(files, false)| > 0 then Select(files, false) else old(filesToFormData)
      ensures Ui() == OutcomeUi(Select(files, true), Select(files, false), old(Btn()))
    {
      SizeCheck(files, sizeAttr);
      FormatCheck(files, accept);
      label checked:
      var invalid := Select(files, true);
      var valid := Select(files, false);
      if |valid| > 0 {
        filesToFormData := valid;
      }
      ShowOutcome(invalid, valid);
      assert unchanged@checked(files);
      assert invalid == Select(files, true) && valid == Select(files, false);
    }

    /** Sends the two lists to the report of their outcome. */
    method ShowOutcome(invalid: seq<UploadFile>, valid: seq<UploadFile>)
      modifies this`submitDisabled, this`submitClass, this`containerStatus, this`icon, this`report
      ensures Ui() == OutcomeUi(invalid, valid, old(Btn()))
    {
      if |invalid| > 0 && |valid| > 0 {
        FileUploadReporting(invalid, valid);
      } else if |invalid| > 0 && |valid| == 0 {
        FileUploadError(invalid);
      } else {
        FileUploadSuccess(valid);
      }
    }

    /** A new selection replaces the file list; an empty one resets the
      widget and any other is checked. */
    method FileUploadHandler(files: seq<UploadFile>)
      modifies this`fileList, this`filesToFormData, this`submitDisabled, this`submitClass, this`containerStatus, this`icon, this`report
      modifies files
      ensures fileList == files
      ensures |files| == 0 ==> Ui() == ResetUi(old(Btn())) && filesToFormData == old(filesToFormData)
      ensures |files| > 0 ==>
        && (forall f :: f in files ==>
             && f.sizeError == SizeMarker(f.size, old(f.sizeError), sizeAttr)
             && f.formatError == FormatMarker(f.name, old(f.formatError), accept))
        && filesToFormData == (if |Select(files, false)| > 0 then Select(files, false) else old(filesToFormData))
        && Ui() == OutcomeUi(Select(files, true), Select(files, false), old(Btn()))
    {
      fileList := files;
      if |files| == 0 {
        FileUploadStatusReset();
      } else {
        FileUploadCheck(files);
      }
    }

    /** Submitting: with no selection the widget resets; otherwise the
      thank-you note replaces the report and nothing else changes but the
      container status and icon. */
    method FileUploadSubmit()
      modifies this`submitDisabled, this`submitClass, this`containerStatus, this`icon, this`report
      ensures |fileList| == 0 ==> Ui() == ResetUi(old(Btn()))
      ensures |fileList| > 0 ==> Ui() == ThankYouUi(old(Btn()))
    {
      if |fileList| == 0 {
        FileUploadStatusReset();
      } else {
        RemoveChildElements();
        SetStatusElements(Standard, Upload);
        report := report + [Section(ThemeSuccess, THANK_YOU_SUMMARY, [])];
      }
    }

    /** A drag over the drop zone highlights it. */
    method FileUploadDragFocus()
      modifies this`containerStatus, this`icon
      ensures containerStatus == Focused && icon == Upload
    {
      SetStatusElements(Focused, Upload);
    }

    /** A drag leaving the drop zone returns it to the standard status,
      whatever the status was before the drag. */
    method FileUploadDragBlur()
      modifies this`containerStatus, this`icon
      ensures containerStatus == Standard && icon == Upload
    {
      SetStatusElements(Standard, Upload);
    }

    /** Handling the same non-empty selection twice leaves the markers,
      `filesToFormData` and the display exactly as handling it once does. */
    method FileUploadHandlerTwice(files: seq<UploadFile>)
      requires |files| > 0
      modifies this`fileList, this`filesToFormData, this`submitDisabled, this`submitClass, this`containerStatus, this`icon, this`report
      modifies files
      ensures fileList == files
      ensures forall f :: f in files ==>
        && f.sizeError == SizeMarker(f.size, old(f.sizeError), sizeAttr)
        && f.formatError == FormatMarker(f.name, old(f.formatError), accept)
      ensures filesToFormData == (if |Select(files, false)| > 0 then Select(files, false) else old(filesToFormData))
      ensures Ui() == OutcomeUi(Select(files, true), Select(files, false), old(Btn()))
    {
      FileUploadHandler(files);
      label first:
      ghost var verdicts := seq(|files|, i requires 0 <= i < |files| reads files => HasError(files[i]));
      SelectKeep(files, verdicts, true);
      SelectKeep(files, verdicts, false);
      FileUploadHandler(files);
      forall f | f in files
        ensures f.sizeError == old@first(f.sizeError) && f.formatError == old@first(f.formatError)
      {
        MarkersIdempotent(f.size, f.name, old(f.sizeError), old(f.formatError), sizeAttr, accept);
      }
      SelectKeep(files, verdicts, true);
      SelectKeep(files, verdicts, false);
      ButtonIdempotent(CommandOf(CheckOutcome(files)), old(Btn()));
    }
  }

}
