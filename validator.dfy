/** The validator of the file uploader: the size check and the format check
    that attach error markers to each selected file, and the split of the
    selection into files with errors and files without. */
module Validator {

  import opened Options
  import opened JsText

  /** A selected file. Its name and size are fixed; the two checks attach
      error markers to it in place (an unset marker is `None`). */
  class UploadFile {
    const name: string
    const size: nat
    var sizeError: Option<string>
    var formatError: Option<string>

    constructor (name: string, size: nat)
      ensures this.name == name && this.size == size
      ensures sizeError == None && formatError == None
    {
      this.name := name;
      this.size := size;
      sizeError := None;
      formatError := None;
    }
  }

  /** JavaScript truthiness of an optional string: set and not empty. */
  predicate Truthy(o: Option<string>)
  {
    o.Some? && o.value != ""
  }

  // ---------------------------------------------------------------------
  // Format check
  // ---------------------------------------------------------------------

  /** The separator of the entries of the `accept` attribute. */
  const ACCEPT_SEPARATOR: string := ", "

  /** The accepted extensions: the `accept` attribute split on `", "`. */
  function AcceptedTypes(accept: string): seq<string>
  {
    Split(accept, ACCEPT_SEPARATOR)
  }

  /** The extension of a file name: the text from its last `.` to the end;
      a name with no `.` is its own "extension". */
  function Extension(name: string): (ext: string)
    ensures '.' !in name ==> ext == name
    ensures '.' in name ==>
      && |ext| > 0 && ext[0] == '.' && '.' !in ext[1..]
      && |ext| <= |name| && name == name[..|name| - |ext|] + ext
  {
    var sub := Substring(name, LastIndexOf(name, '.'), |name|);
    if sub != "" then sub else name
  }

  /** The format marker of a file after the format check: when `accept` is
      truthy and the extension is not one of the accepted types, the whole
      `accept` string; otherwise the marker the file already had. */
  function FormatMarker(name: string, prior: Option<string>, accept: Option<string>): (r: Option<string>)
    ensures !Truthy(accept) ==> r == prior
    ensures Truthy(accept) && Extension(name) !in AcceptedTypes(accept.value) ==> r == Some(accept.value)
    ensures Truthy(accept) && Extension(name) in AcceptedTypes(accept.value) ==> r == prior
    ensures Truthy(prior) ==> Truthy(r)
  {
    if Truthy(accept) then
      if IndexOf(AcceptedTypes(accept.value), Extension(name)) < 0 then Some(accept.value) else prior
    else prior
  }

  /** A name without a `.` is checked as a whole: it is rejected by every
      declared `accept` list that does not contain the whole name. */
  lemma NoDotNameRejected(name: string, prior: Option<string>, accept: Option<string>)
    requires '.' !in name && Truthy(accept)
    requires name !in AcceptedTypes(accept.value)
    ensures FormatMarker(name, prior, accept) == Some(accept.value)
  {
  }

  /** The format marker is the accepted-types list joined back with `", "`,
      that is, the `accept` attribute itself. */
  lemma FormatMarkerIsAcceptList(name: string, prior: Option<string>, accept: Option<string>)
    requires Truthy(accept)
    requires !Truthy(prior)
    ensures Truthy(FormatMarker(name, prior, accept)) <==> Extension(name) !in AcceptedTypes(accept.value)
    ensures Truthy(FormatMarker(name, prior, accept)) ==>
      FormatMarker(name, prior, accept) == Some(Join(AcceptedTypes(accept.value), ACCEPT_SEPARATOR))
  {
    JoinSplit(accept.value, ACCEPT_SEPARATOR);
  }

  // ---------------------------------------------------------------------
  // Size check
  // ---------------------------------------------------------------------

  /** The size limit used when the input declares none: 5 MiB in bytes. */
  const DEFAULT_SIZE_LIMIT: string := "5242880"

  /** The size limit string: the `data-file-size` attribute when truthy,
      otherwise the default. */
  function SizeLimit(sizeAttr: Option<string>): (limit: string)
    ensures |limit| > 0
  {
    if Truthy(sizeAttr) then sizeAttr.value else DEFAULT_SIZE_LIMIT
  }

  /** `size > limit` with the limit string coerced to a number; a limit that
      is not a number (`NaN`) makes the comparison false. */
  predicate Exceeds(size: nat, limit: string)
  {
    match ToNumber(limit)
    case Some(n) => size > n
    case None => false
  }

  /** The size marker's text: the first character of the limit string
      followed by `MB`. */
  function SizeLabel(limit: string): (text: string)
    requires |limit| > 0
    ensures |text| == 3 && text[0] == limit[0] && text[1..] == "MB"
  {
    limit[..1] + "MB"
  }

  /** The size marker of a file after the size check: the limit's label
      when the file is larger than the limit; otherwise the marker the file
      already had. */
  function SizeMarker(size: nat, prior: Option<string>, sizeAttr: Option<string>): (r: Option<string>)
    ensures r == prior || Truthy(r)
    ensures Truthy(prior) ==> Truthy(r)
  {
    var limit := SizeLimit(sizeAttr);
    if Exceeds(size, limit) then Some(SizeLabel(limit)) else prior
  }

  /** The default limit string reads as the number 5242880. */
  lemma DefaultLimitValue()
    ensures ToNumber(DEFAULT_SIZE_LIMIT) == Some(5242880)
  {
    DigitsValueAppend("", '5');
    assert DigitsValue("5") == 5 by { assert "" + ['5'] == "5"; }
    DigitsValueAppend("5", '2');
    assert DigitsValue("52") == 52 by { assert "5" + ['2'] == "52"; }
    DigitsValueAppend("52", '4');
    assert DigitsValue("524") == 524 by { assert "52" + ['4'] == "524"; }
    DigitsValueAppend("524", '2');
    assert DigitsValue("5242") == 5242 by { assert "524" + ['2'] == "5242"; }
    DigitsValueAppend("5242", '8');
    assert DigitsValue("52428") == 52428 by { assert "5242" + ['8'] == "52428"; }
    DigitsValueAppend("52428", '8');
    assert DigitsValue("524288") == 524288 by { assert "52428" + ['8'] == "524288"; }
    DigitsValueAppend("524288", '0');
    assert DigitsValue(DEFAULT_SIZE_LIMIT) == 5242880 by { assert "524288" + ['0'] == DEFAULT_SIZE_LIMIT; }
  }

  /** With no (or an empty) `data-file-size` attribute a file is marked
      `"5MB"` exactly when it is larger than 5242880 bytes. */
  lemma DefaultSizeLimit(size: nat, prior: Option<string>, sizeAttr: Option<string>)
    requires !Truthy(sizeAttr)
    ensures SizeMarker(size, prior, sizeAttr) == if size > 5242880 then Some("5MB") else prior
  {
    var limit := DEFAULT_SIZE_LIMIT;
    DefaultLimitValue();
    assert SizeLimit(sizeAttr) == limit;
    assert limit[..1] == "5";
    assert SizeLabel(limit) == "5MB";
  }

  /** A declared limit that reads as the number `n` (leading zeros
      included, as in `"05242880"`) marks exactly the files larger than
      `n`, with the limit's first character and `MB` (`"0MB"` there). */
  lemma NumericSizeLimit(size: nat, prior: Option<string>, sizeAttr: Option<string>, n: nat)
    requires Truthy(sizeAttr) && ToNumber(sizeAttr.value) == Some(n)
    ensures SizeMarker(size, prior, sizeAttr) == if size > n then Some([sizeAttr.value[0]] + "MB") else prior
  {
    assert SizeLimit(sizeAttr) == sizeAttr.value;
    assert sizeAttr.value[..1] == [sizeAttr.value[0]];
  }

  /** A limit declared as the decimal rendering of `n` bytes marks exactly
      the files larger than `n`, with the first digit of `n` and `MB`. */
  lemma DeclaredSizeLimit(size: nat, prior: Option<string>, n: nat)
    ensures var limit := NatToDecimal(n);
      SizeMarker(size, prior, Some(limit)) == if size > n then Some([limit[0]] + "MB") else prior
  {
    NatToDecimalRoundTrip(n);
    NumericSizeLimit(size, prior, Some(NatToDecimal(n)), n);
  }

  /** A limit that is not a number never marks a file. */
  lemma NonNumericSizeLimit(size: nat, prior: Option<string>, sizeAttr: Option<string>)
    requires Truthy(sizeAttr) && !IsDigits(sizeAttr.value)
    ensures SizeMarker(size, prior, sizeAttr) == prior
  {
  }

  /** Running either check a second time changes no marker. */
  lemma MarkersIdempotent(size: nat, name: string, sizeError: Option<string>, formatError: Option<string>,
                          sizeAttr: Option<string>, accept: Option<string>)
    ensures var s := SizeMarker(size, sizeError, sizeAttr);
      SizeMarker(size, s, sizeAttr) == s
    ensures var m := FormatMarker(name, formatError, accept);
      FormatMarker(name, m, accept) == m
  {
  }

  // ---------------------------------------------------------------------
  // The checks, in place over the selected files
  // ---------------------------------------------------------------------

  /** The size check of one file against the limit string. */
  method MarkSize(f: UploadFile, limit: string, sizeAttr: Option<string>)
    requires limit == SizeLimit(sizeAttr)
    modifies f`sizeError
    ensures f.sizeError == SizeMarker(f.size, old(f.sizeError), sizeAttr)
  {
    if Exceeds(f.size, limit) {
      f.sizeError := Some(SizeLabel(limit));
    }
  }

  /** The size check: every file larger than the limit gets the size
      marker; no other marker changes. */
  method SizeCheck(files: seq<UploadFile>, sizeAttr: Option<string>)
    modifies files
    ensures forall f :: f in files ==>
      f.sizeError == SizeMarker(f.size, old(f.sizeError), sizeAttr) && f.formatError == old(f.formatError)
  {
    var limit := SizeLimit(sizeAttr);
    for i := 0 to |files|
      invariant forall f :: f in files ==> f.formatError == old(f.formatError)
      invariant forall f :: f in files ==>
        f.sizeError == if f in files[..i] then SizeMarker(f.size, old(f.sizeError), sizeAttr) else old(f.sizeError)
    {
      var f := files[i];
      MarkSize(f, limit, sizeAttr);
      assert files[..i + 1] == files[..i] + [f];
    }
    assert files[..|files|] == files;
  }

  /** The format check of one file against the accepted types of a truthy
      `accept` attribute. */
  method MarkFormat(f: UploadFile, types: seq<string>, accept: Option<string>)
    requires Truthy(accept) && types == AcceptedTypes(accept.value)
    modifies f`formatError
    ensures f.formatError == FormatMarker(f.name, old(f.formatError), accept)
  {
    var ext := Extension(f.name);
    if IndexOf(types, ext) < 0 {
      f.formatError := accept;
    }
  }

  /** The format check: when `accept` is truthy, every file whose extension
      is not an accepted type gets the format marker; no other marker
      changes. */
  method FormatCheck(files: seq<UploadFile>, accept: Option<string>)
    modifies files
    ensures forall f :: f in files ==>
      f.formatError == FormatMarker(f.name, old(f.formatError), accept) && f.sizeError == old(f.sizeError)
  {
    if Truthy(accept) {
      var types := AcceptedTypes(accept.value);
      for i := 0 to |files|
        invariant forall f :: f in files ==> f.sizeError == old(f.sizeError)
        invariant forall f :: f in files ==>
          f.formatError == if f in files[..i] then FormatMarker(f.name, old(f.formatError), accept) else old(f.formatError)
      {
        var f := files[i];
        MarkFormat(f, types, accept);
        assert files[..i + 1] == files[..i] + [f];
      }
      assert files[..|files|] == files;
    }
  }

  // ---------------------------------------------------------------------
  // Partition
  // ---------------------------------------------------------------------

  /** A file has an error when either marker is truthy. */
  predicate HasError(f: UploadFile)
    reads f
  {
    Truthy(f.sizeError) || Truthy(f.formatError)
  }

  /** The files, in order, whose `HasError` equals `invalid`: the files with
      errors for `true`, the valid files for `false`. */
  function Select(files: seq<UploadFile>, invalid: bool): (r: seq<UploadFile>)
    reads files
  {
    if files == [] then []
    else
      var rest := Select(files[1..], invalid);
      if HasError(files[0]) == invalid then [files[0]] + rest else rest
  }

  /** The selection holds exactly the input files with the given verdict:
      with `SelectAppend` and `PartitionCovers`, the files with errors and
      the valid files are disjoint and together make up the input. */
  lemma {:induction false} SelectMembers(files: seq<UploadFile>, invalid: bool)
    ensures forall i :: 0 <= i < |Select(files, invalid)| ==>
      Select(files, invalid)[i] in files && HasError(Select(files, invalid)[i]) == invalid
    ensures forall i :: 0 <= i < |files| && HasError(files[i]) == invalid ==> files[i] in Select(files, invalid)
  {
    if files != [] {
      SelectMembers(files[1..], invalid);
      assert files == [files[0]] + files[1..];
    }
  }

  /** Selecting from a file followed by more files. */
  lemma SelectCons(x: UploadFile, rest: seq<UploadFile>, invalid: bool)
    ensures Select([x] + rest, invalid) == (if HasError(x) == invalid then [x] else []) + Select(rest, invalid)
  {
    assert ([x] + rest)[1..] == rest;
  }

  /** Selecting from a concatenation selects from each part, in order:
      the selection keeps the order of the input. */
  lemma {:induction false} SelectAppend(a: seq<UploadFile>, b: seq<UploadFile>, invalid: bool)
    ensures Select(a + b, invalid) == Select(a, invalid) + Select(b, invalid)
  {
    if a == [] {
      assert a + b == b;
    } else {
      var x, restA := a[0], a[1..];
      SelectAppend(restA, b, invalid);
      assert a == [x] + restA && a + b == [x] + (restA + b);
      SelectCons(x, restA, invalid);
      SelectCons(x, restA + b, invalid);
      var head := if HasError(x) == invalid then [x] else [];
      assert head + (Select(restA, invalid) + Select(b, invalid)) == (head + Select(restA, invalid)) + Select(b, invalid);
    }
  }

  /** The files with errors and the valid files together are the input,
      file for file: their lengths add up and their multisets add up. */
  lemma {:induction false} PartitionCovers(files: seq<UploadFile>)
    ensures |Select(files, true)| + |Select(files, false)| == |files|
    ensures multiset(Select(files, true)) + multiset(Select(files, false)) == multiset(files)
  {
    if files != [] {
      PartitionCovers(files[1..]);
      assert files == [files[0]] + files[1..];
    }
  }

  /** The files, in order, whose verdict in `verdicts` equals `invalid`:
      `Select` over verdicts recorded apart from the heap. */
  function Keep(files: seq<UploadFile>, verdicts: seq<bool>, invalid: bool): seq<UploadFile>
    requires |verdicts| == |files|
  {
    if files == [] then []
    else (if verdicts[0] == invalid then [files[0]] else []) + Keep(files[1..], verdicts[1..], invalid)
  }

  /** The selection depends on the files' verdicts only: with the verdicts
      recorded, it is `Keep` of them, in whatever state they were recorded. */
  lemma {:induction false} SelectKeep(files: seq<UploadFile>, verdicts: seq<bool>, invalid: bool)
    requires |verdicts| == |files|
    requires forall i :: 0 <= i < |files| ==> verdicts[i] == HasError(files[i])
    ensures Select(files, invalid) == Keep(files, verdicts, invalid)
  {
    if files != [] {
      SelectKeep(files[1..], verdicts[1..], invalid);
    }
  }

  /** A selection is empty exactly when no input file has its verdict. */
  lemma {:induction false} SelectEmptyIff(files: seq<UploadFile>, invalid: bool)
    ensures Select(files, invalid) == [] <==> forall i :: 0 <= i < |files| ==> HasError(files[i]) != invalid
  {
    if files != [] {
      SelectEmptyIff(files[1..], invalid);
      assert forall i :: 0 < i < |files| ==> files[i] == files[1..][i - 1];
    }
  }

  /** When every file agrees on `HasError`, the selection for that verdict
      is the whole input and the other selection is empty. */
  lemma {:induction false} SelectUniform(files: seq<UploadFile>, invalid: bool)
    requires forall f :: f in files ==> HasError(f) == invalid
    ensures Select(files, invalid) == files
    ensures Select(files, !invalid) == []
  {
    if files != [] {
      SelectUniform(files[1..], invalid);
    }
  }

  /** Markers set by the checks are never empty, so a file's markers are
      truthy exactly when they are set. */
  predicate WellMarked(f: UploadFile)
    reads f
  {
    (f.sizeError.Some? ==> f.sizeError.value != "") && (f.formatError.Some? ==> f.formatError.value != "")
  }

  /** The checks keep every file well marked, and on a well-marked file an
      error is exactly a set marker (both may be set at once). */
  lemma ChecksKeepWellMarked(f: UploadFile, size: Option<string>, format: Option<string>,
                             sizeAttr: Option<string>, accept: Option<string>)
    requires WellMarked(f)
    requires size == SizeMarker(f.size, f.sizeError, sizeAttr)
    requires format == FormatMarker(f.name, f.formatError, accept)
    ensures size.Some? ==> size.value != ""
    ensures format.Some? ==> format.value != ""
    ensures Truthy(size) || Truthy(format) <==> size.Some? || format.Some?
  {
  }

  /** A file may carry both markers: one larger than the limit whose
      extension is not accepted gets a truthy size marker and a truthy
      format marker, whatever it carried before. */
  lemma ChecksMarkBoth(size: nat, name: string, priorSize: Option<string>, priorFormat: Option<string>,
                       sizeAttr: Option<string>, accept: Option<string>)
    requires Exceeds(size, SizeLimit(sizeAttr))
    requires Truthy(accept) && Extension(name) !in AcceptedTypes(accept.value)
    ensures Truthy(SizeMarker(size, priorSize, sizeAttr)) && Truthy(FormatMarker(name, priorFormat, accept))
  {
  }

}
