# MP3 tag editor: tag reconciliation, metadata record and form checks

This project models the decision logic of a small desktop MP3 tag editor in Dafny.

An MP3 file can carry two tag stores:
- the modern one (ID3v2; new stores are created as version 2.4);
- the legacy one (ID3v1).

The model covers three parts of the editor.

- **`MP3TagService`** (`TagService.dfy`):
  - Reading takes every field from the modern store when one exists. It falls back to the legacy store otherwise, and gives a blank record when there is neither.
  - Writing updates the modern store with one policy per field:
    - title, artist, album and year are overwritten, and null clears them;
    - genre is written only when present;
    - BPM is appended to the comment;
    - cover art is embedded with its sniffed MIME type, or removed.
  - Writing then back-fills title, artist, album and year into the legacy store. It saves under a separate output path.
  - The codec's in-memory file is the class `Mp3File`. `WriteTags` and `SyncLegacy` update its stores step by step and are proved against the value-level function `Written`.
  - The files on disk are a map from location to container.
- **`MP3Metadata`** (`Metadata.dfy`): the mutable record with nullable fields, as a class. It has both constructors, getters, setters with framing postconditions, and `toString`.
- **`MP3EditorPanel`** (`EditorPanel.dfy`):
  - the year and BPM checks behind "Save";
  - the guarantee that nothing is written unless the selection, the year, the BPM and the save dialog all allow it;
  - `addSuffixToFileName`;
  - the duplicate-free file list `FileListModel`.

The Java library calls these decisions rest on are modelled in `JavaLib.dfy`:
- `String.trim` and `isBlank`;
- the `\d` class;
- the value `Integer.parseInt` reads;
- `Integer.toString`;
- `lastIndexOf` and `indexOf`.

`Wrappers.dfy` holds `Option`, which stands for a nullable reference, and `Result`.

Cover art. `model/MP3Metadata.java:9-14` declares no cover-art field. Yet `service/MP3TagService.java:43-44`, `:111-113` and `ui/MP3EditorPanel.java:386` call `getCoverArt` and `setCoverArt` on it, so the file as given does not compile against its callers. The model adds the field the callers need, as `coverArt: Option<Bytes>`. Neither constructor sets it, so it starts out null. `toString` does not show it.

Two details of the code:
- After appending `" BPM=<n>"`, the code applies `String.trim` to the whole comment, which strips whitespace at both ends. Because the result ends in a digit, only the previous comment's leading whitespace is removed. A blank or missing comment becomes the bare marker `BPM=<n>`.
- Without a modern store, reading takes five text fields from the legacy store: title, artist, album, year and genre. The legacy genre is taken as its genre-list description.

## Model

| member | source | states |
|---|---|---|
| TagService.Read | src/main/java/com/mp3editor/service/MP3TagService.java:24-63 | BPM is never read back; without a modern store there is no cover art |
| TagService.ReadPrefersModern | src/main/java/com/mp3editor/service/MP3TagService.java:28-45 | with a modern store, the read does not depend on the legacy store at all; title, artist, album, year and genre come from the modern store even when null; BPM is null; cover art is the embedded picture's bytes exactly when there is a picture |
| TagService.ReadFallsBackToLegacy | src/main/java/com/mp3editor/service/MP3TagService.java:49-59 | without a modern store, the five text fields come from the legacy store, and BPM and cover art are null |
| TagService.ReadWithoutTags | src/main/java/com/mp3editor/service/MP3TagService.java:61-62 | a file with no store reads as the all-null record, not as an error |
| TagService.DetectMimeType | src/main/java/com/mp3editor/service/MP3TagService.java:126-136 | never fails; "image/png" exactly when there are at least 8 bytes starting 0x89 0x50; "image/jpeg" in every other case |
| TagService.DetectMimeTypeExamples | src/main/java/com/mp3editor/service/MP3TagService.java:126-136 | a JPEG signature gives JPEG, a PNG signature gives PNG, a 4-byte PNG start and a GIF signature give the JPEG default |
| TagService.BpmMarker | src/main/java/com/mp3editor/service/MP3TagService.java:106 | the marker is non-empty, starts with a non-space and ends in a digit |
| TagService.SpacedMarker | src/main/java/com/mp3editor/service/MP3TagService.java:106 | the appended text is one space followed by the marker |
| TagService.CommentWithBpmAppends | src/main/java/com/mp3editor/service/MP3TagService.java:101-108 | the new comment is the old one, less its leading whitespace, followed by " BPM=" and the decimal BPM; a missing or blank comment becomes "BPM=" and the number |
| TagService.BpmMarkersAccumulate | src/main/java/com/mp3editor/service/MP3TagService.java:101-108 | recording BPM twice leaves both markers, the second appended after the first |
| TagService.WrittenModern | src/main/java/com/mp3editor/service/MP3TagService.java:77-117 | the written modern store keeps its version; a picture it holds has non-empty data and a JPEG or PNG MIME type |
| TagService.Backfilled | src/main/java/com/mp3editor/service/MP3TagService.java:142-156 | the back-filled legacy store keeps its genre |
| TagService.Written | src/main/java/com/mp3editor/service/MP3TagService.java:74-124 | the written file has both stores and the original audio |
| TagService.WriteOverwritesText | src/main/java/com/mp3editor/service/MP3TagService.java:77-90 | after a write both stores exist, and their title, artist, album and year are the record's, so a null record field clears them |
| TagService.WriteCreatesModernStore | src/main/java/com/mp3editor/service/MP3TagService.java:78-84 | a missing modern store is created as version 2.4; an existing one keeps its version |
| TagService.WriteGenreOnlyWhenPresent | src/main/java/com/mp3editor/service/MP3TagService.java:93-97 | the modern genre becomes the record's genre when present, and otherwise stays as it was (none for a new store) |
| TagService.WriteBpmIntoComment | src/main/java/com/mp3editor/service/MP3TagService.java:101-108 | without BPM the comment is unchanged; with BPM the marker is appended after the previous comment |
| TagService.WriteCoverArt | src/main/java/com/mp3editor/service/MP3TagService.java:111-117 | non-empty cover art is embedded with the detected MIME type; null or empty cover art removes the picture |
| TagService.WriteKeepsLegacyGenre | src/main/java/com/mp3editor/service/MP3TagService.java:142-156 | the back-fill leaves the legacy genre unchanged (none in a new store), and the audio is untouched |
| TagService.WriteThenRead | src/main/java/com/mp3editor/service/MP3TagService.java:74-124 | reading a written file gives the record back, except that the genre is the kept one when the record had none, empty cover art reads as null, and BPM reads as null |
| TagService.BpmIsWriteOnly | src/main/java/com/mp3editor/service/MP3TagService.java:101-108 | a BPM that was written never reads back, a consequence of `WriteThenRead` |
| TagService.ReadWriteReadStable | src/main/java/com/mp3editor/service/MP3TagService.java:24-124 | writing back what was read and reading again gives the same record, unless the file holds an empty picture |
| TagService.EmptyPictureDropped | src/main/java/com/mp3editor/service/MP3TagService.java:111-117 | an empty embedded picture reads as empty cover art, and the write-back removes it |
| TagService.DisagreeingStoresScenario | src/main/java/com/mp3editor/service/MP3TagService.java:74-124 | with modern title "Old"/genre "Rock" and legacy title "Legacy", reading gives "Old"/"Rock"; writing title "New", no genre, BPM 130 and no cover art gives modern title "New", genre "Rock", comment "BPM=130" (with `Integer.toString(130)` proved to be "130"), no picture, and legacy title "New" |
| TagService.DecimalOf130 | src/main/java/com/mp3editor/service/MP3TagService.java:106 | the decimal text of 130 is "130" |
| TagService.EditModernStore | src/main/java/com/mp3editor/service/MP3TagService.java:77-117 | editing the fetched or fresh modern store field by field gives exactly `WrittenModern` of it and the record |
| TagService.Mp3File.Open | src/main/java/com/mp3editor/service/MP3TagService.java:75 | the opened file holds the container's stores and audio |
| TagService.Mp3File.WriteTags | src/main/java/com/mp3editor/service/MP3TagService.java:77-120 | the file's new state is `Written` of its old state and the record |
| TagService.Mp3File.SyncLegacy | src/main/java/com/mp3editor/service/MP3TagService.java:142-156 | the legacy store is fetched or created, and only its title, artist, album and year change, to the record's; the modern store and audio are unchanged |
| TagService.ReadFile | src/main/java/com/mp3editor/service/MP3TagService.java:24-25 | reading fails exactly when there is no readable MP3 file at the location |
| TagService.WriteFile | src/main/java/com/mp3editor/service/MP3TagService.java:74-124 | the input being unreadable and the save failing are each reported exactly when they happen; a successful write adds the output location, holding `Written` of the input file, and keeps every other location |
| TagService.WriteLeavesInputUntouched | src/main/java/com/mp3editor/service/MP3TagService.java:123 | a successful write to a different location adds or replaces only the output file; the input file and every other file are unchanged |
| TagService.ReadEditWriteRead | src/main/java/com/mp3editor/Main.java:19-30 | read, change title and artist, write elsewhere, read back: new title and artist, the album, year and genre that were read, and null BPM |
| TagService.WriteMetadata | src/main/java/com/mp3editor/service/MP3TagService.java:74-124 | the outcome is an unreadable input, a failed save, or the disk with the output location holding the written file |
| Mp3Metadata.Metadata.constructor | src/main/java/com/mp3editor/model/MP3Metadata.java:16-17 | every field null |
| Mp3Metadata.Metadata.Of | src/main/java/com/mp3editor/model/MP3Metadata.java:19-31 | each argument in its own field; cover art null |
| Mp3Metadata.Metadata.GetTitle | src/main/java/com/mp3editor/model/MP3Metadata.java:33-35 | returns the object's title |
| Mp3Metadata.Metadata.GetArtist | src/main/java/com/mp3editor/model/MP3Metadata.java:41-43 | returns the object's artist |
| Mp3Metadata.Metadata.GetAlbum | src/main/java/com/mp3editor/model/MP3Metadata.java:49-51 | returns the object's album |
| Mp3Metadata.Metadata.GetGenre | src/main/java/com/mp3editor/model/MP3Metadata.java:57-59 | returns the object's genre |
| Mp3Metadata.Metadata.GetYear | src/main/java/com/mp3editor/model/MP3Metadata.java:65-67 | returns the object's year |
| Mp3Metadata.Metadata.GetBpm | src/main/java/com/mp3editor/model/MP3Metadata.java:73-75 | returns the object's BPM |
| Mp3Metadata.Metadata.GetCoverArt | src/main/java/com/mp3editor/service/MP3TagService.java:111-113 | returns the object's cover art |
| Mp3Metadata.Metadata.SetTitle | src/main/java/com/mp3editor/model/MP3Metadata.java:33-39 | the getter returns the value set; every other field unchanged |
| Mp3Metadata.Metadata.SetArtist | src/main/java/com/mp3editor/model/MP3Metadata.java:41-47 | the getter returns the value set; every other field unchanged |
| Mp3Metadata.Metadata.SetAlbum | src/main/java/com/mp3editor/model/MP3Metadata.java:49-55 | the getter returns the value set; every other field unchanged |
| Mp3Metadata.Metadata.SetGenre | src/main/java/com/mp3editor/model/MP3Metadata.java:57-63 | the getter returns the value set; every other field unchanged |
| Mp3Metadata.Metadata.SetYear | src/main/java/com/mp3editor/model/MP3Metadata.java:65-71 | the getter returns the value set; every other field unchanged |
| Mp3Metadata.Metadata.SetBpm | src/main/java/com/mp3editor/model/MP3Metadata.java:73-79 | the getter returns the value set; every other field unchanged |
| Mp3Metadata.Metadata.SetCoverArt | src/main/java/com/mp3editor/service/MP3TagService.java:43-44 | the getter returns the cover art set; every other field unchanged |
| Mp3Metadata.Render | src/main/java/com/mp3editor/model/MP3Metadata.java:82-91 | the text starts with "MP3Metadata{" and ends with "}" |
| Mp3Metadata.Metadata.ToString | src/main/java/com/mp3editor/model/MP3Metadata.java:82-91 | the object's text starts with "MP3Metadata{" and ends with "}" |
| Mp3Metadata.RenderIgnoresCoverArt | src/main/java/com/mp3editor/model/MP3Metadata.java:82-91 | the text does not depend on the cover art |
| Mp3Metadata.RenderNullAsText | src/main/java/com/mp3editor/model/MP3Metadata.java:82-91 | a null field shows as the word null, so it renders like the text "null" |
| EditorPanel.ParseYear | src/main/java/com/mp3editor/ui/MP3EditorPanel.java:355-383 | a blank field gives no year; anything else is refused exactly when its trimmed text is not four digits in 1400..2099, and an accepted year is the trimmed text; the refusal is "not four digits" exactly when the trimmed text is not four digits, and "out of range" exactly when it is four digits outside 1400..2099; there is no other refusal |
| EditorPanel.YearAccepted | src/main/java/com/mp3editor/ui/MP3EditorPanel.java:357-380 | "2024" is accepted as "2024" |
| EditorPanel.YearAcceptedPadded | src/main/java/com/mp3editor/ui/MP3EditorPanel.java:357-380 | " 2024 " is accepted as "2024" |
| EditorPanel.YearBlank | src/main/java/com/mp3editor/ui/MP3EditorPanel.java:381-383 | a blank field gives no year |
| EditorPanel.YearNotFourDigitsExamples | src/main/java/com/mp3editor/ui/MP3EditorPanel.java:360-366 | "99" and "abcd" are refused as not four digits |
| EditorPanel.YearTooEarly | src/main/java/com/mp3editor/ui/MP3EditorPanel.java:371-377 | "1399" is refused as out of range |
| EditorPanel.YearTooLate | src/main/java/com/mp3editor/ui/MP3EditorPanel.java:371-377 | "2100" is refused as out of range |
| EditorPanel.YearFieldRoundTrip | src/main/java/com/mp3editor/ui/MP3EditorPanel.java:355-380 | an accepted year, typed again, is accepted unchanged |
| EditorPanel.ParseBpm | src/main/java/com/mp3editor/ui/MP3EditorPanel.java:389-404 | a blank field gives no BPM; a non-blank field is refused exactly when its trimmed text is not all digits or its value exceeds 2^31-1, as "not digits" exactly in the first case and "too large" exactly in the second; an accepted BPM is the value of the trimmed digits |
| EditorPanel.ShortBpmFits | src/main/java/com/mp3editor/ui/MP3EditorPanel.java:394-403 | up to nine digits are always accepted, so only longer texts can overflow |
| EditorPanel.BpmAccepted | src/main/java/com/mp3editor/ui/MP3EditorPanel.java:389-404 | "128" gives 128 |
| EditorPanel.BpmBlank | src/main/java/com/mp3editor/ui/MP3EditorPanel.java:389-391 | a blank field gives no BPM |
| EditorPanel.BpmRefused | src/main/java/com/mp3editor/ui/MP3EditorPanel.java:392-398 | "12a" is refused as not digits |
| EditorPanel.BpmFieldRoundTrip | src/main/java/com/mp3editor/ui/MP3EditorPanel.java:314 | a non-negative BPM shown with `toString` parses back to itself |
| EditorPanel.ValidateForm | src/main/java/com/mp3editor/ui/MP3EditorPanel.java:346-404 | the form is refused exactly when the year or the BPM is; a bad year is reported before a bad BPM, and a bad BPM after a good year is reported with the BPM check's own reason; an accepted record holds the four texts as typed, the checked year and BPM, and the chosen cover art |
| EditorPanel.AddSuffixToFileName | src/main/java/com/mp3editor/ui/MP3EditorPanel.java:438-446 | without a '.' the suffix is appended; otherwise it goes just before the last '.', with nothing else changed |
| EditorPanel.AddSuffixSplits | src/main/java/com/mp3editor/ui/MP3EditorPanel.java:437-446 | for any stem and any extension starting with its only '.', the suffix goes between the stem and the extension |
| EditorPanel.SuffixBeforeExtension | src/main/java/com/mp3editor/ui/MP3EditorPanel.java:437-446 | "song.mp3" becomes "song_edited.mp3" |
| EditorPanel.SuffixBeforeLastDot | src/main/java/com/mp3editor/ui/MP3EditorPanel.java:437-446 | "live.2024.mp3" becomes "live.2024_edited.mp3": only the last '.' counts |
| EditorPanel.SuffixWithoutExtension | src/main/java/com/mp3editor/ui/MP3EditorPanel.java:437-446 | "song" becomes "song_edited" |
| EditorPanel.SuggestedOutput | src/main/java/com/mp3editor/ui/MP3EditorPanel.java:411-412 | the suggested location is in the selected file's directory, and its name is the selected name lengthened by "_edited" |
| EditorPanel.SuggestedOutputDiffers | src/main/java/com/mp3editor/ui/MP3EditorPanel.java:411-412 | the suggested save location is never the selected file |
| EditorPanel.CollectMetadata | src/main/java/com/mp3editor/ui/MP3EditorPanel.java:346-404 | the step-by-step form read fails exactly when `ValidateForm` refuses, with its reason, and otherwise builds a new record object holding `ValidateForm`'s value |
| EditorPanel.SaveTags | src/main/java/com/mp3editor/ui/MP3EditorPanel.java:335-435 | every outcome other than a save leaves every file unchanged; "nothing selected" exactly without a selection; "rejected" exactly when the form is refused, with the form's reason; "cancelled" exactly when a valid form meets a cancelled dialog; "save error" exactly when the write fails, with the write's error; "saved" exactly when the write succeeds, and then the chosen location holds the record written from the selected file |
| EditorPanel.Without | src/main/java/com/mp3editor/ui/MP3EditorPanel.java:488-495 | the list without the file: the file is gone, every other file keeps its membership, and no duplicates are introduced |
| EditorPanel.RemoveFirstIsWithout | src/main/java/com/mp3editor/ui/MP3EditorPanel.java:489-491 | in a duplicate-free list, removing the first occurrence removes the file entirely and keeps the others in order |
| EditorPanel.FileListModel.constructor | src/main/java/com/mp3editor/ui/MP3EditorPanel.java:463 | the list starts empty |
| EditorPanel.FileListModel.AddFile | src/main/java/com/mp3editor/ui/MP3EditorPanel.java:478-485 | a file already listed leaves the list unchanged; otherwise it is appended; the list stays duplicate-free |
| EditorPanel.FileListModel.RemoveFile | src/main/java/com/mp3editor/ui/MP3EditorPanel.java:488-495 | the file is no longer listed, the others keep their order, an absent file leaves the list unchanged, and the list stays duplicate-free |
| JavaLib.Trim | src/main/java/com/mp3editor/ui/MP3EditorPanel.java:356-357 | the trimmed text is empty exactly for a blank text, and otherwise neither starts nor ends with whitespace |
| JavaLib.TrimLeadingAppend | src/main/java/com/mp3editor/service/MP3TagService.java:106-107 | trimming the front of a concatenation: a blank head disappears; otherwise only the head is trimmed |
| JavaLib.TrimLeadingOfText | src/main/java/com/mp3editor/service/MP3TagService.java:106-107 | a text that is not blank keeps a non-space first character after its leading whitespace is trimmed |
| JavaLib.UnpaddedStart | src/main/java/com/mp3editor/service/MP3TagService.java:106-107 | a text starting with a non-space is not blank and is unchanged by trimming its front |
| JavaLib.DigitsValue | src/main/java/com/mp3editor/ui/MP3EditorPanel.java:368 | the value of n digits is below 10^n |
| JavaLib.DecimalRoundTrip | src/main/java/com/mp3editor/ui/MP3EditorPanel.java:314 | reading back the decimal text of a number gives the number |
| JavaLib.IntToString | src/main/java/com/mp3editor/service/MP3TagService.java:106 | the text ends in a digit, and it is all digits exactly for a non-negative number |
| JavaLib.LastIndexOf | src/main/java/com/mp3editor/ui/MP3EditorPanel.java:439 | the position of the last occurrence, or -1 when there is none |
| JavaLib.IndexOf | src/main/java/com/mp3editor/ui/MP3EditorPanel.java:489 | the position of the first occurrence, or -1 when there is none |

## Left out

- The tag codec (mp3agic): the bytes of ID3v1 and ID3v2 tags, parsing an MP3 file, and saving it. A file is the value `Container`, and a file that cannot be opened is a location missing from the disk map.
- ID3v1 limits enforced by the codec, such as 30-character fields and a genre that must come from the fixed list. The legacy genre is an opaque optional text.
- Swing: dialogs, layout, look-and-feel switching and list-change notifications. The save dialog's answer and whether the codec's save succeeds are parameters of `SaveTags`.
- Reading a cover image from disk (`Files.readAllBytes`) and `chooseCoverImage`, `loadMetadataToForm` and `clearForm`, which only move values between the form and the record.
- `FileListModel.getSize` and `getElementAt`, which only read the list.
- `MainFrame`, window chrome only. `Main` appears only as the flow stated by `ReadEditWriteRead`.
- TagService.WriteFile: a failed save leaves the disk map unchanged; a partially written output file is not modelled.
- TagService.WriteLeavesInputUntouched: stated only for an output location different from the input. Writing onto the input itself is left to the codec.
- TagService.WrittenModern, TagService.Backfilled: the codec's setters are modelled as storing exactly the value passed, null and the empty text included. This is an assumption about mp3agic; its setters are not part of this model.
- TagService.Mp3File.WriteTags: the codec's tag objects are updated in place through references; here each store is a value written back into the file, so aliasing between tag objects is not modelled.
- FilePath: two locations are equal when their directory and name texts are equal. Case-insensitive file names (as on Windows) are not modelled.
- JavaLib.Trim: the model treats every character at or below U+0020 as whitespace, both for `String.trim` (which is exact) and for `String.isBlank`. `isBlank` differs in both directions. It does not count the control characters U+0000-U+0008 and U+000E-U+001B as blank. It does count Unicode spaces above U+0020. So a year or BPM field made only of such control characters is refused by the program (it is not blank, and its trimmed text is empty) but is blank in the model, which accepts it as no value.
- EditorPanel.ParseBpm: a digit string above 2^31-1 makes `Integer.parseInt` throw, which the panel does not catch. The model reports it as the refusal `BpmTooLarge`, so nothing is written, as in the program.
- EditorPanel.FileListModel.AddFile: the duplicate check uses value equality of locations, which matches `File.equals` only up to the case-insensitivity noted above.
- Mp3Metadata.Metadata.ToString: the contract states only the surrounding "MP3Metadata{" and "}". The field layout is stated by the definition of `Render` and the two lemmas about it; no lemma spells out a complete rendered text.
