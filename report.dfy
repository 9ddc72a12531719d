/** The status report of the file uploader: sections of a summary and a
    list of per-file lines, standing in for the status holders, paragraphs
    and list items the widget puts into its status element. */
module Report {

  import opened JsText
  import opened Validator

  /** The colour theme of a status holder. */
  datatype Theme = ThemeStandard | ThemeSuccess | ThemeWarning

  /** One status holder: its theme, its summary paragraph and its list of
      items (no list at all is the empty sequence). */
  datatype Section = Section(theme: Theme, summary: string, items: seq<string>)

  /** The line for a file with a size marker. */
  function SizeLine(name: string, marker: string): string
  {
    name + " is larger than " + marker
  }

  /** The line for a file with a format marker. */
  function FormatLine(name: string, marker: string): string
  {
    name + " should be in a " + marker + " format"
  }

  /** The line for a file with no error: its name and size in bytes. */
  function ReadyLine(name: string, size: nat): string
  {
    name + " (" + NatToDecimal(size) + " bytes)"
  }

  /** The lines for one file: a size line when its size marker is truthy,
      then a format line when its format marker is truthy, and when it has
      neither, the single line with its size. */
  function FileLines(f: UploadFile): seq<string>
    reads f
  {
    (if Truthy(f.sizeError) then [SizeLine(f.name, f.sizeError.value)] else [])
    + (if Truthy(f.formatError) then [FormatLine(f.name, f.formatError.value)] else [])
    + (if !Truthy(f.sizeError) && !Truthy(f.formatError) then [ReadyLine(f.name, f.size)] else [])
  }

  /** A file gives one or two lines: two exactly when both markers are
      truthy, the size line first and the format line last, and the line
      with its size when it has no error. */
  lemma FileLinesShape(f: UploadFile)
    ensures var lines := FileLines(f);
      && 1 <= |lines| <= 2
      && (!HasError(f) ==> lines == [ReadyLine(f.name, f.size)])
      && (Truthy(f.sizeError) ==> lines[0] == SizeLine(f.name, f.sizeError.value))
      && (Truthy(f.formatError) ==> lines[|lines| - 1] == FormatLine(f.name, f.formatError.value))
      && (|lines| == 2 <==> Truthy(f.sizeError) && Truthy(f.formatError))
  {
  }

  /** The list items for a sequence of files, file by file in order. */
  function Lines(files: seq<UploadFile>): seq<string>
    reads files
  {
    if files == [] then []
    else Lines(files[..|files| - 1]) + FileLines(files[|files| - 1])
  }

  /** The lines of a concatenation are the lines of its parts, in order. */
  lemma {:induction false} LinesAppend(a: seq<UploadFile>, b: seq<UploadFile>)
    ensures Lines(a + b) == Lines(a) + Lines(b)
    decreases |b|
  {
    if b == [] {
      assert a + b == a;
    } else {
      var init := b[..|b| - 1];
      LinesAppend(a, init);
      assert (a + b)[..|a + b| - 1] == a + init;
    }
  }

  /** `n` files give between `n` and `2n` lines. */
  lemma {:induction false} LinesBounds(files: seq<UploadFile>)
    ensures |files| <= |Lines(files)| <= 2 * |files|
  {
    if files != [] {
      LinesBounds(files[..|files| - 1]);
      FileLinesShape(files[|files| - 1]);
    }
  }

  /** Files without errors give exactly one line each, the line with the
      file's name and size, in the order of the files. */
  lemma {:induction false} LinesOfValid(files: seq<UploadFile>)
    requires forall i :: 0 <= i < |files| ==> !HasError(files[i])
    ensures |Lines(files)| == |files|
    ensures forall i :: 0 <= i < |files| ==> Lines(files)[i] == ReadyLine(files[i].name, files[i].size)
  {
    if files != [] {
      LinesOfValid(files[..|files| - 1]);
      FileLinesShape(files[|files| - 1]);
    }
  }

  /** Building the list item by item gives the lines of the files. */
  method CreateStatusMessageList(files: seq<UploadFile>) returns (items: seq<string>)
    ensures items == Lines(files)
  {
    items := [];
    for i := 0 to |files|
      invariant items == Lines(files[..i])
    {
      var f := files[i];
      if Truthy(f.sizeError) {
        items := items + [SizeLine(f.name, f.sizeError.value)];
      }
      if Truthy(f.formatError) {
        items := items + [FormatLine(f.name, f.formatError.value)];
      }
      if !Truthy(f.sizeError) && !Truthy(f.formatError) {
        items := items + [ReadyLine(f.name, f.size)];
      }
      assert files[..i + 1][..i] == files[..i];
    }
    assert files[..|files|] == files;
  }

}
