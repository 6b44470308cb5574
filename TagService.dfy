/**
  The tag reconciliation service (`MP3TagService`).  An MP3 file carries up
  to two tag stores: the modern one (ID3v2) and the legacy one (ID3v1).
  Reading takes every field from the modern store when there is one and
  falls back to the legacy store otherwise; writing updates the modern store
  field by field, each with its own policy, back-fills four text fields into
  the legacy store, and saves the result under a separate output path.
  The byte-level tag codec is outside the model: a file is the value
  `Container`.
*/
module TagService {
  import opened Wrappers
  import opened JavaLib
  import opened Mp3Metadata

  const Jpeg: string := "image/jpeg"
  const Png: string := "image/png"

  /** An embedded picture and the MIME type it was stored with. */
  datatype Picture = Picture(data: Bytes, mimeType: string)

  /** The modern store (ID3v2): free-text genre, a comment and at most one embedded picture. */
  datatype ModernStore = ModernStore(
    majorVersion: nat,
    title: Option<string>,
    artist: Option<string>,
    album: Option<string>,
    year: Option<string>,
    genre: Option<string>,
    comment: Option<string>,
    picture: Option<Picture>)

  /** The legacy store (ID3v1); its genre is the description of an entry of the fixed genre list. */
  datatype LegacyStore = LegacyStore(
    title: Option<string>,
    artist: Option<string>,
    album: Option<string>,
    year: Option<string>,
    genre: Option<string>)

  /** An MP3 file as the codec sees it: either store may be missing; the audio is copied unchanged. */
  datatype Container = Container(modern: Option<ModernStore>, legacy: Option<LegacyStore>, audio: Bytes)

  /** A new `ID3v24Tag`: version 2.4, every field empty. */
  const FreshModernStore: ModernStore := ModernStore(4, None, None, None, None, None, None, None)

  /** A new `ID3v1Tag`: every field empty. */
  const FreshLegacyStore: LegacyStore := LegacyStore(None, None, None, None, None)

  /**
    `detectMimeType`: PNG exactly when there are at least 8 bytes and the
    first two are 0x89 'P' (the start of the PNG signature); JPEG in every
    other case, the SOI marker FF D8 included.
  */
  function DetectMimeType(data: Bytes): (mime: string)
    ensures mime == Png <==> 8 <= |data| && data[0] == 0x89 && data[1] == 0x50
    ensures mime == Jpeg <==> mime != Png
  {
    if |data| < 8 then Jpeg
    else if data[0] == 0xFF && data[1] == 0xD8 then Jpeg
    else if data[0] == 0x89 && data[1] == 0x50 /* 'P' */ then Png
    else Jpeg
  }

  /** Signatures of both formats, and the short-input default. */
  lemma DetectMimeTypeExamples()
    ensures DetectMimeType([0xFF, 0xD8, 0xFF, 0xE0, 0, 0x10, 0x4A, 0x46]) == Jpeg
    ensures DetectMimeType([0x89, 0x50, 0x4E, 0x47, 0x0D, 0x0A, 0x1A, 0x0A]) == Png
    ensures DetectMimeType([0x89, 0x50, 0x4E, 0x47]) == Jpeg
    ensures DetectMimeType([0x47, 0x49, 0x46, 0x38, 0x39, 0x61, 0, 0]) == Jpeg
  {
  }

  /**
    `readMetadata` on an opened file: the modern store wins outright, the
    legacy store is the fallback, and no store at all gives a blank record.
    BPM is never read back.
  */
  function Read(c: Container): (r: Record)
    ensures r.bpm == None
    ensures c.modern.None? ==> r.coverArt == None
  {
    match c.modern
    case Some(tag) =>
      Record(tag.title, tag.artist, tag.album, tag.genre, tag.year, None,
             if tag.picture.Some? then Some(tag.picture.value.data) else None)
    case None =>
      match c.legacy
      case Some(tag) => Record(tag.title, tag.artist, tag.album, tag.genre, tag.year, None, None)
      case None => Blank
  }

  /**
    With a modern store present, every field read comes from it, whatever
    the legacy store holds (even a populated legacy field behind an empty
    modern one): the stores are never merged.
  */
  lemma ReadPrefersModern(c: Container, legacy: Option<LegacyStore>)
    requires c.modern.Some?
    ensures Read(c.(legacy := legacy)) == Read(c)
    ensures var tag, r := c.modern.value, Read(c);
      r.title == tag.title && r.artist == tag.artist && r.album == tag.album
      && r.year == tag.year && r.genre == tag.genre && r.bpm == None
      && (r.coverArt.Some? <==> tag.picture.Some?)
      && (tag.picture.Some? ==> r.coverArt.value == tag.picture.value.data)
  {
  }

  /** Without a modern store the five text fields come from the legacy store; BPM and cover art are null. */
  lemma ReadFallsBackToLegacy(c: Container)
    requires c.modern.None? && c.legacy.Some?
    ensures var tag, r := c.legacy.value, Read(c);
      r == Record(tag.title, tag.artist, tag.album, tag.genre, tag.year, None, None)
  {
  }

  /** A file with no tags reads as a blank record, not as an error. */
  lemma ReadWithoutTags(c: Container)
    requires c.modern.None? && c.legacy.None?
    ensures Read(c) == Blank
  {
  }

  /** The marker BPM leaves in the comment: "BPM=" and the decimal number. */
  function BpmMarker(bpm: Int32): (m: string)
    ensures m != [] && !IsSpace(m[0]) && IsDigit(m[|m| - 1])
  {
    "BPM=" + IntToString(bpm)
  }

  /** What `writeMetadata` appends to the comment: a space, then the marker. */
  function SpacedMarker(bpm: Int32): (m: string)
    ensures m != [] && m[0] == ' ' && m[1..] == BpmMarker(bpm)
  {
    " BPM=" + IntToString(bpm)
  }

  /** The comment after BPM is recorded in it: old comment (or ""), " BPM=", the number, all trimmed. */
  function CommentWithBpm(comment: Option<string>, bpm: Int32): string {
    Trim(comment.GetOr("") + SpacedMarker(bpm))
  }

  /**
    Recording BPM keeps the previous comment (less its leading whitespace)
    and appends the spaced marker; a missing or blank comment becomes the
    bare marker.
  */
  lemma CommentWithBpmAppends(comment: Option<string>, bpm: Int32)
    ensures IsBlank(comment.GetOr("")) ==> CommentWithBpm(comment, bpm) == BpmMarker(bpm)
    ensures !IsBlank(comment.GetOr("")) ==>
      CommentWithBpm(comment, bpm) == TrimLeading(comment.GetOr("")) + SpacedMarker(bpm)
  {
    TrimAfterText(comment.GetOr(""), SpacedMarker(bpm));
    TrimSpacedMarker(bpm);
  }

  lemma TrimSpacedMarker(bpm: Int32)
    ensures TrimLeading(SpacedMarker(bpm)) == BpmMarker(bpm)
  {
    var m := SpacedMarker(bpm);
    assert TrimLeading(m) == TrimLeading(m[1..]);
  }

  /** Trimming text followed by something ending in a digit: only the front is trimmed. */
  lemma TrimAfterText(prior: string, tail: string)
    requires tail != [] && IsDigit(tail[|tail| - 1])
    ensures IsBlank(prior) ==> Trim(prior + tail) == TrimLeading(tail)
    ensures !IsBlank(prior) ==> Trim(prior + tail) == TrimLeading(prior) + tail
  {
    var text := prior + tail;
    assert text[|text| - 1] == tail[|tail| - 1];
    TrimEndingInDigit(text);
    TrimLeadingAppend(prior, tail);
  }

  /** Trimming text that ends in a digit only strips its leading whitespace. */
  lemma TrimEndingInDigit(s: string)
    requires s != [] && IsDigit(s[|s| - 1])
    ensures Trim(s) == TrimLeading(s)
  {
    var t := TrimLeading(s);
    assert t != [] && t[|t| - 1] == s[|s| - 1];
  }

  /** Writing BPM twice leaves both markers: the second is appended after the first comment. */
  lemma BpmMarkersAccumulate(comment: Option<string>, first: Int32, second: Int32)
    ensures CommentWithBpm(Some(CommentWithBpm(comment, first)), second)
         == CommentWithBpm(comment, first) + SpacedMarker(second)
  {
    var prior, c1 := comment.GetOr(""), CommentWithBpm(comment, first);
    CommentWithBpmAppends(comment, first);
    if IsBlank(prior) {
      assert c1 == BpmMarker(first);
    } else {
      TrimLeadingOfText(prior);
      assert c1 == TrimLeading(prior) + SpacedMarker(first);
      assert c1[0] == TrimLeading(prior)[0];
    }
    UnpaddedStart(c1);
    CommentWithBpmAppends(Some(c1), second);
  }

  /**
    The modern store after a write: title, artist, album and year overwritten
    (null clears), genre overwritten only when present, BPM appended to the
    comment when present, the picture replaced by non-empty cover art or removed.
  */
  function WrittenModern(tag: ModernStore, r: Record): (written: ModernStore)
    ensures written.majorVersion == tag.majorVersion
    ensures written.picture.Some? ==>
      |written.picture.value.data| > 0 && written.picture.value.mimeType in {Jpeg, Png}
  {
    tag.(title := r.title, artist := r.artist, album := r.album, year := r.year,
         genre := if r.genre.Some? then r.genre else tag.genre,
         comment := if r.bpm.Some? then Some(CommentWithBpm(tag.comment, r.bpm.value)) else tag.comment,
         picture := if r.coverArt.Some? && |r.coverArt.value| > 0
                    then Some(Picture(r.coverArt.value, DetectMimeType(r.coverArt.value)))
                    else None)
  }

  /** The legacy store after a write: the four text fields it shares with the record, copied. */
  function Backfilled(tag: LegacyStore, r: Record): (filled: LegacyStore)
    ensures filled.genre == tag.genre
  {
    tag.(title := r.title, artist := r.artist, album := r.album, year := r.year)
  }

  /** The file `writeMetadata` saves: both stores present (created when missing), audio untouched. */
  function Written(c: Container, r: Record): (w: Container)
    ensures w.modern.Some? && w.legacy.Some? && w.audio == c.audio
  {
    Container(Some(WrittenModern(c.modern.GetOr(FreshModernStore), r)),
              Some(Backfilled(c.legacy.GetOr(FreshLegacyStore), r)),
              c.audio)
  }

  /** Title, artist, album and year are overwritten in both stores; a null field clears them. */
  lemma WriteOverwritesText(c: Container, r: Record)
    ensures var w := Written(c, r);
      w.modern.Some? && w.legacy.Some?
      && w.modern.value.title == r.title && w.modern.value.artist == r.artist
      && w.modern.value.album == r.album && w.modern.value.year == r.year
      && w.legacy.value.title == r.title && w.legacy.value.artist == r.artist
      && w.legacy.value.album == r.album && w.legacy.value.year == r.year
  {
  }

  /** A missing modern store is created as version 2.4; an existing one keeps its version. */
  lemma WriteCreatesModernStore(c: Container, r: Record)
    ensures Written(c, r).modern.value.majorVersion == if c.modern.Some? then c.modern.value.majorVersion else 4
  {
  }

  /** Genre is written only when present; otherwise the modern genre stays as it was. */
  lemma WriteGenreOnlyWhenPresent(c: Container, r: Record)
    ensures var g := Written(c, r).modern.value.genre;
      g == if r.genre.Some? then r.genre else if c.modern.Some? then c.modern.value.genre else None
  {
  }

  /** BPM lands in the comment, after what was there; without BPM the comment is untouched. */
  lemma WriteBpmIntoComment(c: Container, r: Record)
    ensures var before := if c.modern.Some? then c.modern.value.comment else None;
      var after := Written(c, r).modern.value.comment;
      && (r.bpm.None? ==> after == before)
      && (r.bpm.Some? && !IsBlank(before.GetOr("")) ==>
            after == Some(TrimLeading(before.value) + SpacedMarker(r.bpm.value)))
      && (r.bpm.Some? && IsBlank(before.GetOr("")) ==> after == Some(BpmMarker(r.bpm.value)))
  {
    if r.bpm.Some? {
      var before := if c.modern.Some? then c.modern.value.comment else None;
      CommentWithBpmAppends(before, r.bpm.value);
    }
  }

  /** Non-empty cover art is embedded with its detected MIME type; null or empty cover art removes the picture. */
  lemma WriteCoverArt(c: Container, r: Record)
    ensures var p := Written(c, r).modern.value.picture;
      && (r.coverArt.Some? && |r.coverArt.value| > 0 ==>
            p == Some(Picture(r.coverArt.value, DetectMimeType(r.coverArt.value))))
      && (r.coverArt.None? || r.coverArt.value == [] ==> p == None)
  {
  }

  /** The back-fill leaves the legacy genre as it was and never touches the audio. */
  lemma WriteKeepsLegacyGenre(c: Container, r: Record)
    ensures Written(c, r).legacy.value.genre == if c.legacy.Some? then c.legacy.value.genre else None
    ensures Written(c, r).audio == c.audio
  {
  }

  /**
    Reading what was written gives back title, artist, album and year, the
    genre if one was given (else the genre the modern store kept), the cover
    art if it was non-empty -- and never the BPM.
  */
  lemma WriteThenRead(c: Container, r: Record)
    ensures Read(Written(c, r)) == r.(
      genre := if r.genre.Some? then r.genre else if c.modern.Some? then c.modern.value.genre else None,
      bpm := None,
      coverArt := if r.coverArt.Some? && |r.coverArt.value| > 0 then r.coverArt else None)
  {
  }

  /** BPM does not survive a write and a read, whatever its value. */
  lemma BpmIsWriteOnly(c: Container, r: Record)
    requires r.bpm.Some?
    ensures Read(Written(c, r)).bpm == None
  {
    WriteThenRead(c, r);
  }

  /**
    Reading, writing back what was read and reading again gives the same
    record, unless the modern store held an empty picture (read as empty
    cover art, which the write then removes).
  */
  lemma ReadWriteReadStable(c: Container)
    requires c.modern.Some? && c.modern.value.picture.Some? ==> |c.modern.value.picture.value.data| > 0
    ensures Read(Written(c, Read(c))) == Read(c)
  {
    WriteThenRead(c, Read(c));
  }

  /** An empty embedded picture is the exception: it reads as empty cover art and the round trip drops it. */
  lemma EmptyPictureDropped(c: Container)
    requires c.modern.Some? && c.modern.value.picture.Some? && c.modern.value.picture.value.data == []
    ensures Read(c).coverArt == Some([])
    ensures Read(Written(c, Read(c))).coverArt == None
  {
  }

  /**
    A file whose two stores disagree: reading shows the modern values; a write
    with a new title, no genre, BPM 130 and no cover art keeps the modern
    genre, records the BPM in the comment, drops the picture and back-fills
    the new title into the legacy store.
  */
  lemma DisagreeingStoresScenario(audio: Bytes, picture: Picture)
    ensures var c := Container(
                Some(FreshModernStore.(title := Some("Old"), genre := Some("Rock"), picture := Some(picture))),
                Some(FreshLegacyStore.(title := Some("Legacy"))),
                audio);
      var r := Blank.(title := Some("New"), bpm := Some(130));
      var w := Written(c, r);
      && Read(c).title == Some("Old") && Read(c).genre == Some("Rock")
      && w.modern.value.title == Some("New") && w.modern.value.genre == Some("Rock")
      && w.modern.value.comment == Some("BPM=" + IntToString(130))
      && IntToString(130) == "130"
      && w.modern.value.picture == None
      && w.legacy.value.title == Some("New")
  {
    var c := Container(
      Some(FreshModernStore.(title := Some("Old"), genre := Some("Rock"), picture := Some(picture))),
      Some(FreshLegacyStore.(title := Some("Legacy"))),
      audio);
    WriteBpmIntoComment(c, Blank.(title := Some("New"), bpm := Some(130)));
    DecimalOf130();
  }

  lemma DecimalOf130()
    ensures IntToString(130) == "130"
  {
    assert Decimal(1) == "1";
    assert Decimal(13) == Decimal(1) + [DigitChar(3)] == "13";
    assert Decimal(130) == Decimal(13) + [DigitChar(0)] == "130";
  }

  /** The edits `writeMetadata` makes to the modern store, field by field. */
  method EditModernStore(fetched: ModernStore, meta: Metadata) returns (tag: ModernStore)
    ensures tag == WrittenModern(fetched, meta.Value())
  {
    tag := fetched;
    tag := tag.(title := meta.GetTitle());
    tag := tag.(artist := meta.GetArtist());
    tag := tag.(album := meta.GetAlbum());
    tag := tag.(year := meta.GetYear());
    if meta.GetGenre().Some? {
      tag := tag.(genre := meta.GetGenre());
    }
    if meta.GetBpm().Some? {
      var comment := tag.comment.GetOr("");
      comment := comment + SpacedMarker(meta.GetBpm().value);  // " BPM=" and the number
      tag := tag.(comment := Some(Trim(comment)));
    }
    var cover := meta.GetCoverArt();
    if cover.Some? && |cover.value| > 0 {
      var mimeType := DetectMimeType(cover.value);
      tag := tag.(picture := Some(Picture(cover.value, mimeType)));
    } else {
      tag := tag.(picture := None);
    }
  }

  /**
    The in-memory `Mp3File` of the codec, open on one file: the stores are
    replaced as `writeMetadata` and `syncId3v1Tag` update them.
  */
  class Mp3File {
    var modern: Option<ModernStore>
    var legacy: Option<LegacyStore>
    const audio: Bytes

    function Value(): Container
      reads this
    {
      Container(modern, legacy, audio)
    }

    /** `new Mp3File(path)` on a readable file. */
    constructor Open(c: Container)
      ensures Value() == c
    {
      modern := c.modern;
      legacy := c.legacy;
      audio := c.audio;
    }

    /** The updates `writeMetadata` makes before saving: the modern store, then the legacy back-fill. */
    method WriteTags(meta: Metadata)
      modifies this
      ensures Value() == Written(old(Value()), meta.Value())
    {
      var tag: ModernStore;
      if modern.Some? {
        tag := modern.value;
      } else {
        tag := FreshModernStore;
      }
      tag := EditModernStore(tag, meta);
      // The codec's tag is an object updated in place; here the updated value is stored back.
      modern := Some(tag);
      SyncLegacy(meta);
    }

    /** `syncId3v1Tag`: get or create the legacy store and copy the four text fields it shares with the record. */
    method SyncLegacy(meta: Metadata)
      modifies this
      ensures Value() == old(Value()).(legacy := Some(Backfilled(old(legacy).GetOr(FreshLegacyStore), meta.Value())))
    {
      var tag: LegacyStore;
      if legacy.Some? {
        tag := legacy.value;
      } else {
        tag := FreshLegacyStore;
      }
      tag := tag.(title := meta.GetTitle());
      tag := tag.(artist := meta.GetArtist());
      tag := tag.(album := meta.GetAlbum());
      tag := tag.(year := meta.GetYear());
      legacy := Some(tag);
    }
  }

  /** A file's location: its directory and its name. */
  datatype FilePath = FilePath(parent: string, name: string)

  /** The MP3 files the codec can open, by location. */
  type Disk = map<FilePath, Container>

  datatype Error = ContainerUnreadable | WriteFailed

  /** `readMetadata(file)`. */
  function ReadFile(disk: Disk, path: FilePath): (res: Result<Record, Error>)
    ensures res.Failure? <==> path !in disk
  {
    if path in disk then Success(Read(disk[path])) else Failure(ContainerUnreadable)
  }

  /** `writeMetadata(input, output, record)`; `saved` is whether the codec's save to disk succeeded. */
  function WriteFile(disk: Disk, input: FilePath, output: FilePath, r: Record, saved: bool): (res: Result<Disk, Error>)
    ensures res == Failure(ContainerUnreadable) <==> input !in disk
    ensures res == Failure(WriteFailed) <==> input in disk && !saved
    ensures res.Success? ==> res.value.Keys == disk.Keys + {output} && res.value[output] == Written(disk[input], r)
    ensures res.Success? ==> forall p :: p in disk && p != output ==> p in res.value && res.value[p] == disk[p]
  {
    if input !in disk then Failure(ContainerUnreadable)
    else if !saved then Failure(WriteFailed)
    else Success(disk[output := Written(disk[input], r)])
  }

  /**
    A write stores the new file under the output path only: the input file and
    every other file stay as they were, as long as the output path differs
    from the input path.
  */
  lemma WriteLeavesInputUntouched(disk: Disk, input: FilePath, output: FilePath, r: Record, saved: bool)
    requires input != output
    requires WriteFile(disk, input, output, r, saved).Success?
    ensures var disk' := WriteFile(disk, input, output, r, saved).value;
      disk'.Keys == disk.Keys + {output}
      && (forall p :: p in disk && p != output ==> disk'[p] == disk[p])
      && disk'[input] == disk[input]
      && ReadFile(disk', input) == ReadFile(disk, input)
  {
  }

  /**
    The console demo's flow: read a file, change title and artist, write to a
    second path, read that back.  Title and artist are the new ones; album,
    year and genre are what was read; BPM is null.
  */
  lemma ReadEditWriteRead(disk: Disk, input: FilePath, output: FilePath, title: string, artist: string)
    requires input in disk
    ensures var before := ReadFile(disk, input).value;
      var edited := before.(title := Some(title), artist := Some(artist));
      var disk' := WriteFile(disk, input, output, edited, true).value;
      var after := ReadFile(disk', output);
      after.Success?
      && after.value.title == Some(title) && after.value.artist == Some(artist)
      && after.value.album == before.album && after.value.year == before.year
      && after.value.genre == before.genre && after.value.bpm == None
  {
    var before := Read(disk[input]);
    WriteThenRead(disk[input], before.(title := Some(title), artist := Some(artist)));
  }

  /**
    `writeMetadata`: open the input file, update its tags from the record,
    save to the output path.
  */
  method WriteMetadata(disk: Disk, input: FilePath, output: FilePath, meta: Metadata, saved: bool)
    returns (res: Result<Disk, Error>)
    ensures res == WriteFile(disk, input, output, meta.Value(), saved)
  {
    if input !in disk {
      return Failure(ContainerUnreadable);
    }
    var file := new Mp3File.Open(disk[input]);
    file.WriteTags(meta);
    if !saved {
      return Failure(WriteFailed);
    }
    res := Success(disk[output := file.Value()]);
  }
}
