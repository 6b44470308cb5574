/**
  The decision logic inside the editor panel (`MP3EditorPanel`): checking
  the year and BPM typed into the form, saving only when both are valid,
  proposing the output name `<name>_edited.<ext>`, and the duplicate-free
  list of chosen files.  Dialogs and layout are not modelled; the user's
  answer to the save dialog is a parameter.
*/
module EditorPanel {
  import opened Wrappers
  import opened JavaLib
  import opened Mp3Metadata
  import opened TagService

  /** The texts of the six form fields; a Swing text field never yields null. */
  datatype Form = Form(title: string, artist: string, album: string, genre: string, year: string, bpm: string)

  /** Why the form was refused. */
  datatype Invalid =
    | YearNotFourDigits   // "Year must be a 4-digit number"
    | YearOutOfRange      // "Year must be between 1400 and 2099"
    | BpmNotDigits        // "BPM must contain digits only"
    | BpmTooLarge         // digits only, but above Integer.MAX_VALUE: `Integer.parseInt` throws

  /** A year the form accepts: four ASCII digits denoting a number from 1400 to 2099. */
  predicate ValidYear(y: string) {
    |y| == 4 && AllDigits(y) && 1400 <= DigitsValue(y) <= 2099
  }

  /**
    The year check: a blank field means no year; otherwise the trimmed text
    must be four digits within [1400, 2099], and that trimmed text is the year.
  */
  function ParseYear(text: string): (res: Result<Option<string>, Invalid>)
    ensures res == Success(None) <==> IsBlank(text)
    ensures res.Failure? <==> !IsBlank(text) && !ValidYear(Trim(text))
    ensures res.Success? && res.value.Some? ==> res.value.value == Trim(text) && ValidYear(res.value.value)
    ensures res == Failure(YearNotFourDigits) <==> !IsBlank(text) && !(|Trim(text)| == 4 && AllDigits(Trim(text)))
    ensures res == Failure(YearOutOfRange) <==>
      !IsBlank(text) && |Trim(text)| == 4 && AllDigits(Trim(text)) && !(1400 <= DigitsValue(Trim(text)) <= 2099)
    ensures res.Failure? ==> res.error == YearNotFourDigits || res.error == YearOutOfRange
  {
    if IsBlank(text) then Success(None)
    else
      var trimmed := Trim(text);
      if !(|trimmed| == 4 && AllDigits(trimmed)) then Failure(YearNotFourDigits)
      else
        var value := DigitsValue(trimmed);
        if value < 1400 || value > 2099 then Failure(YearOutOfRange)
        else Success(Some(trimmed))
  }

  /**
    The BPM check: a blank field means no BPM; otherwise the trimmed text must
    be one or more ASCII digits, and its value (no range check beyond Java's
    `int`) is the BPM.
  */
  function ParseBpm(text: string): (res: Result<Option<Int32>, Invalid>)
    ensures res == Success(None) <==> IsBlank(text)
    ensures res == Failure(BpmNotDigits) <==> !IsBlank(text) && !AllDigits(Trim(text))
    ensures res.Success? && res.value.Some? ==>
      AllDigits(Trim(text)) && res.value.value == DigitsValue(Trim(text))
    ensures res == Failure(BpmTooLarge) <==> !IsBlank(text) && AllDigits(Trim(text)) && DigitsValue(Trim(text)) > MaxInt32
    ensures res.Failure? <==> !IsBlank(text) && (!AllDigits(Trim(text)) || DigitsValue(Trim(text)) > MaxInt32)
    ensures res.Failure? ==> res.error == BpmNotDigits || res.error == BpmTooLarge
  {
    if IsBlank(text) then Success(None)
    else
      var trimmed := Trim(text);
      if !AllDigits(trimmed) then Failure(BpmNotDigits)
      else if DigitsValue(trimmed) > MaxInt32 then Failure(BpmTooLarge)
      else Success(Some(DigitsValue(trimmed)))
  }

  /** Up to nine digits always fit an `int`, so only longer BPM texts can overflow. */
  lemma {:induction false} ShortBpmFits(text: string)
    requires !IsBlank(text) && AllDigits(Trim(text)) && |Trim(text)| <= 9
    ensures ParseBpm(text).Success? && ParseBpm(text).value.Some?
  {
    var trimmed := Trim(text);
    Pow10Monotone(|trimmed|, 9);
    assert Pow10(9) == 1_000_000_000 by {
      assert Pow10(3) == 1000;
      assert Pow10(6) == 1000 * Pow10(3) by { Pow10Add(3, 3); }
      Pow10Add(6, 3);
    }
  }

  lemma {:induction false} Pow10Add(a: nat, b: nat)
    ensures Pow10(a + b) == Pow10(a) * Pow10(b)
  {
    if a > 0 {
      Pow10Add(a - 1, b);
    }
  }

  lemma {:induction false} Pow10Monotone(a: nat, b: nat)
    requires a <= b
    ensures Pow10(a) <= Pow10(b)
  {
    if a < b {
      Pow10Monotone(a, b - 1);
    }
  }

  /** "2024" is accepted as it stands. */
  lemma YearAccepted()
    ensures ParseYear("2024") == Success(Some("2024"))
  {
    TrimUnpadded("2024");
    DigitsOf4("2024");
  }

  /** Spaces around a year are dropped. */
  lemma YearAcceptedPadded()
    ensures ParseYear(" 2024 ") == Success(Some("2024"))
  {
    var padded := " 2024 ";
    assert TrimLeading(padded) == padded[1..];
    assert TrimTrailing(padded[1..]) == "2024";
    DigitsOf4("2024");
  }

  /** A blank year field means no year. */
  lemma YearBlank()
    ensures ParseYear("   ") == Success(None)
  {
  }

  /** "99" and "abcd" are not four digits. */
  lemma YearNotFourDigitsExamples()
    ensures ParseYear("99") == Failure(YearNotFourDigits)
    ensures ParseYear("abcd") == Failure(YearNotFourDigits)
  {
    TrimUnpadded("99");
    assert !IsDigit("abcd"[0]);
  }

  /** "1399" is before the accepted range. */
  lemma YearTooEarly()
    ensures ParseYear("1399") == Failure(YearOutOfRange)
  {
    TrimUnpadded("1399");
    DigitsOf4("1399");
  }

  /** "2100" is after the accepted range. */
  lemma YearTooLate()
    ensures ParseYear("2100") == Failure(YearOutOfRange)
  {
    TrimUnpadded("2100");
    DigitsOf4("2100");
  }

  /** The value of four digits, digit by digit. */
  lemma DigitsOf4(s: string)
    requires |s| == 4 && AllDigits(s)
    ensures DigitsValue(s) == (s[0] as int - '0' as int) * 1000 + (s[1] as int - '0' as int) * 100
                              + (s[2] as int - '0' as int) * 10 + (s[3] as int - '0' as int)
  {
    assert s[..1][..0] == [] && s[..1][0] == s[0];
    assert s[..2][..1] == s[..1] && s[..2][1] == s[1];
    assert s[..3][..2] == s[..2] && s[..3][2] == s[2];
    assert s[..3] == s[..|s| - 1];
    assert DigitsValue(s[..1]) == s[0] as int - '0' as int;
    assert DigitsValue(s[..2]) == DigitsValue(s[..1]) * 10 + (s[1] as int - '0' as int);
    assert DigitsValue(s[..3]) == DigitsValue(s[..2]) * 10 + (s[2] as int - '0' as int);
  }

  /** "128" is accepted as 128. */
  lemma BpmAccepted()
    ensures ParseBpm("128") == Success(Some(128))
  {
    TrimUnpadded("128");
    assert "128"[..2] == "12" && "12"[..1] == "1" && "1"[..0] == [];
  }

  /** A blank BPM field means no BPM. */
  lemma BpmBlank()
    ensures ParseBpm(" ") == Success(None)
  {
  }

  /** "12a" is refused: not digits only. */
  lemma BpmRefused()
    ensures ParseBpm("12a") == Failure(BpmNotDigits)
  {
    TrimUnpadded("12a");
    assert !IsDigit("12a"[2]);
  }

  /** A year the form accepts is accepted again as is, so reloading and saving a record keeps its year. */
  lemma YearFieldRoundTrip(y: string)
    requires ValidYear(y)
    ensures ParseYear(y) == Success(Some(y))
  {
    TrimUnpadded(y);
  }

  /** The panel shows a BPM with `toString`; parsing that text gives the same BPM back. */
  lemma BpmFieldRoundTrip(bpm: Int32)
    requires bpm >= 0
    ensures ParseBpm(IntToString(bpm)) == Success(Some(bpm))
  {
    var text := IntToString(bpm);
    TrimUnpadded(text);
    DecimalRoundTrip(bpm);
  }

  /**
    The record the form describes: the four free texts as typed, the checked
    year and BPM, the chosen cover art.  The year is checked first.
  */
  function ValidateForm(form: Form, cover: Option<Bytes>): (res: Result<Record, Invalid>)
    ensures res.Failure? <==> ParseYear(form.year).Failure? || ParseBpm(form.bpm).Failure?
    ensures ParseYear(form.year).Failure? ==> res == Failure(ParseYear(form.year).error)
    ensures ParseYear(form.year).Success? && ParseBpm(form.bpm).Failure? ==> res == Failure(ParseBpm(form.bpm).error)
    ensures res.Success? ==> res.value.year.None? || ValidYear(res.value.year.value)
    ensures res.Success? ==>
      && res.value.title == Some(form.title) && res.value.artist == Some(form.artist)
      && res.value.album == Some(form.album) && res.value.genre == Some(form.genre)
      && res.value.year == ParseYear(form.year).value && res.value.bpm == ParseBpm(form.bpm).value
      && res.value.coverArt == cover
  {
    match ParseYear(form.year)
    case Failure(e) => Failure(e)
    case Success(year) =>
      match ParseBpm(form.bpm)
      case Failure(e) => Failure(e)
      case Success(bpm) =>
        Success(Record(Some(form.title), Some(form.artist), Some(form.album), Some(form.genre), year, bpm, cover))
  }

  /**
    `addSuffixToFileName`: the suffix goes just before the last '.', so the
    extension is kept; a name without '.' gets the suffix at its end.
  */
  function AddSuffixToFileName(fileName: string, suffix: string): (r: string)
    ensures |r| == |fileName| + |suffix|
    ensures '.' !in fileName ==> r == fileName + suffix
    ensures '.' in fileName ==>
      exists k :: 0 <= k < |fileName| && fileName[k] == '.' && '.' !in fileName[k + 1..]
                  && r == fileName[..k] + suffix + fileName[k..]
  {
    var dot := LastIndexOf(fileName, '.');
    if dot == -1 then
      fileName + suffix
    else
      assert '.' !in fileName[dot + 1..];
      fileName[..dot] + suffix + fileName[dot..]
  }

  /** A name made of a stem and an extension with a single '.' gets the suffix between the two. */
  lemma AddSuffixSplits(stem: string, ext: string, suffix: string)
    requires ext != [] && ext[0] == '.' && '.' !in ext[1..]
    ensures AddSuffixToFileName(stem + ext, suffix) == stem + suffix + ext
  {
    var name := stem + ext;
    var dot := LastIndexOf(name, '.');
    assert name[|stem|] == '.';
    assert dot == |stem|;
    assert name[..dot] == stem && name[dot..] == ext;
  }

  /** "song.mp3" is saved as "song_edited.mp3". */
  lemma SuffixBeforeExtension()
    ensures AddSuffixToFileName("song" + ".mp3", "_edited") == "song" + "_edited" + ".mp3"
  {
    assert '.' !in "mp3";
    AddSuffixSplits("song", ".mp3", "_edited");
  }

  /** Only the last '.' counts: "live.2024.mp3" is saved as "live.2024_edited.mp3". */
  lemma SuffixBeforeLastDot()
    ensures AddSuffixToFileName("live.2024" + ".mp3", "_edited") == "live.2024" + "_edited" + ".mp3"
  {
    assert '.' !in "mp3";
    AddSuffixSplits("live.2024", ".mp3", "_edited");
  }

  /** A name without extension gets the suffix at its end: "song" is saved as "song_edited". */
  lemma SuffixWithoutExtension()
    ensures AddSuffixToFileName("song", "_edited") == "song_edited"
  {
    assert '.' !in "song" by { assert forall i :: 0 <= i < 4 ==> "song"[i] != '.'; }
  }

  /** A location's suggested save location: same directory, name with "_edited" before the extension. */
  function SuggestedOutput(selected: FilePath): (suggested: FilePath)
    ensures suggested.parent == selected.parent
    ensures |suggested.name| == |selected.name| + |"_edited"|
  {
    FilePath(selected.parent, AddSuffixToFileName(selected.name, "_edited"))
  }

  /** Accepting the suggested location never targets the selected file itself. */
  lemma SuggestedOutputDiffers(selected: FilePath)
    ensures SuggestedOutput(selected) != selected
  {
  }

  /** The user's answer to the save dialog, which proposes the suggested location. */
  datatype SaveChoice = Cancel | KeepSuggested | ChooseOther(file: FilePath)

  /** How an attempt to save ended. */
  datatype SaveOutcome =
    | NothingSelected
    | Rejected(reason: Invalid)
    | Cancelled
    | Saved(output: FilePath)
    | SaveError(error: Error)

  function OutputFor(selected: FilePath, choice: SaveChoice): FilePath
    requires !choice.Cancel?
  {
    if choice.KeepSuggested? then SuggestedOutput(selected) else choice.file
  }

  /**
    The part of `saveTagsForSelectedFile` that fills a new record from the
    form: the four free texts, then the year check, the cover art and the BPM
    check, stopping at the first refused field.
  */
  method CollectMetadata(form: Form, cover: Option<Bytes>) returns (res: Result<Metadata, Invalid>)
    ensures res.Failure? <==> ValidateForm(form, cover).Failure?
    ensures res.Failure? ==> res.error == ValidateForm(form, cover).error
    ensures res.Success? ==> fresh(res.value) && res.value.Value() == ValidateForm(form, cover).value
  {
    var metadata := new Metadata();
    metadata.SetTitle(Some(form.title));
    metadata.SetArtist(Some(form.artist));
    metadata.SetAlbum(Some(form.album));
    metadata.SetGenre(Some(form.genre));
    metadata.SetYear(Some(form.year));

    var yearText := form.year;
    if !IsBlank(yearText) {
      var trimmedYear := Trim(yearText);
      if !(|trimmedYear| == 4 && AllDigits(trimmedYear)) {
        return Failure(YearNotFourDigits);
      }
      var yearValue := DigitsValue(trimmedYear);
      if yearValue < 1400 || yearValue > 2099 {
        return Failure(YearOutOfRange);
      }
      metadata.SetYear(Some(trimmedYear));
    } else {
      metadata.SetYear(None);
    }

    metadata.SetCoverArt(cover);

    var bpmText := form.bpm;
    if !IsBlank(bpmText) {
      var trimmed := Trim(bpmText);
      if !AllDigits(trimmed) {
        return Failure(BpmNotDigits);
      }
      if DigitsValue(trimmed) > MaxInt32 {
        return Failure(BpmTooLarge);
      }
      metadata.SetBpm(Some(DigitsValue(trimmed)));
    }
    return Success(metadata);
  }

  /**
    `saveTagsForSelectedFile`: with no file selected, or with a refused year
    or BPM, it stops before anything is written; a cancelled dialog writes
    nothing either.  Otherwise the record the form describes is written from
    the selected file to the chosen location.  `saved` is whether the codec's
    save to disk succeeds.
  */
  method SaveTags(selected: Option<FilePath>, form: Form, cover: Option<Bytes>, choice: SaveChoice,
                  disk: Disk, saved: bool)
    returns (outcome: SaveOutcome, disk': Disk)
    ensures !outcome.Saved? ==> disk' == disk
    ensures outcome == NothingSelected <==> selected.None?
    ensures outcome.Rejected? <==> selected.Some? && ValidateForm(form, cover).Failure?
    ensures outcome.Rejected? ==> outcome.reason == ValidateForm(form, cover).error
    ensures outcome == Cancelled <==> selected.Some? && ValidateForm(form, cover).Success? && choice.Cancel?
    ensures outcome.SaveError? <==>
      selected.Some? && ValidateForm(form, cover).Success? && !choice.Cancel?
      && WriteFile(disk, selected.value, OutputFor(selected.value, choice), ValidateForm(form, cover).value, saved).Failure?
    ensures outcome.SaveError? ==>
      outcome.error == WriteFile(disk, selected.value, OutputFor(selected.value, choice), ValidateForm(form, cover).value, saved).error
    ensures outcome.Saved? <==>
      selected.Some? && ValidateForm(form, cover).Success? && !choice.Cancel?
      && WriteFile(disk, selected.value, OutputFor(selected.value, choice), ValidateForm(form, cover).value, saved).Success?
    ensures outcome.Saved? ==>
      outcome.output == OutputFor(selected.value, choice)
      && Success(disk') == WriteFile(disk, selected.value, outcome.output, ValidateForm(form, cover).value, saved)
  {
    disk' := disk;
    if selected.None? {
      return NothingSelected, disk';
    }
    var selectedFile := selected.value;

    var collected := CollectMetadata(form, cover);
    if collected.Failure? {
      return Rejected(collected.error), disk';
    }
    var metadata := collected.value;

    if choice.Cancel? {
      return Cancelled, disk';
    }
    var outputFile := OutputFor(selectedFile, choice);

    var res := WriteMetadata(disk, selectedFile, outputFile, metadata, saved);
    if res.Failure? {
      return SaveError(res.error), disk';
    }
    outcome, disk' := Saved(outputFile), res.value;
  }

  /** No two equal entries. */
  predicate NoDuplicates<T(==)>(s: seq<T>) {
    forall i, j :: 0 <= i < j < |s| ==> s[i] != s[j]
  }

  /** `s` without any `x`, the rest in its order. */
  function Without(s: seq<FilePath>, x: FilePath): (r: seq<FilePath>)
    ensures x !in r
    ensures forall y :: y != x ==> (y in r <==> y in s)
    ensures NoDuplicates(s) ==> NoDuplicates(r)
  {
    if s == [] then []
    else if s[0] == x then Without(s[1..], x)
    else
      var rest := Without(s[1..], x);
      assert NoDuplicates(s) ==> s[0] !in s[1..];
      [s[0]] + rest
  }

  lemma {:induction false} WithoutAbsent(s: seq<FilePath>, x: FilePath)
    requires x !in s
    ensures Without(s, x) == s
  {
    if s != [] {
      assert x !in s[1..];
      WithoutAbsent(s[1..], x);
    }
  }

  lemma {:induction false} WithoutAppend(a: seq<FilePath>, b: seq<FilePath>, x: FilePath)
    ensures Without(a + b, x) == Without(a, x) + Without(b, x)
  {
    if a == [] {
      assert a + b == b;
    } else {
      assert (a + b)[0] == a[0];
      assert (a + b)[1..] == a[1..] + b;
      WithoutAppend(a[1..], b, x);
    }
  }

  /** In a list without duplicates, removing the first occurrence removes every occurrence. */
  lemma RemoveFirstIsWithout(s: seq<FilePath>, x: FilePath, i: nat)
    requires NoDuplicates(s) && i < |s| && s[i] == x
    ensures s[..i] + s[i + 1..] == Without(s, x)
  {
    assert s == s[..i] + ([s[i]] + s[i + 1..]);
    assert x !in s[..i];
    assert x !in s[i + 1..];
    WithoutAppend(s[..i], [s[i]] + s[i + 1..], x);
    WithoutAppend([s[i]], s[i + 1..], x);
    WithoutAbsent(s[..i], x);
    WithoutAbsent(s[i + 1..], x);
    assert Without([s[i]], x) == [] by { assert [s[i]][1..] == []; }
  }

  /** The list of chosen files behind the panel's file list (`FileListModel`); it never holds a file twice. */
  class FileListModel {
    var files: seq<FilePath>

    predicate Valid()
      reads this
    {
      NoDuplicates(files)
    }

    constructor ()
      ensures Valid() && files == []
    {
      files := [];
    }

    /** `addFile`: append the file unless it is already listed. */
    method AddFile(file: FilePath)
      requires Valid()
      modifies this
      ensures Valid() && file in files
      ensures files == if file in old(files) then old(files) else old(files) + [file]
    {
      if file !in files {
        files := files + [file];
      }
    }

    /** `removeFile`: drop the file if listed; the others keep their order. */
    method RemoveFile(file: FilePath)
      requires Valid()
      modifies this
      ensures Valid() && file !in files
      ensures files == Without(old(files), file)
    {
      var index := IndexOf(files, file);
      if index >= 0 {
        RemoveFirstIsWithout(files, file, index);
        files := files[..index] + files[index + 1..];
      } else {
        WithoutAbsent(files, file);
      }
    }
  }
}
