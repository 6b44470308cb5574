/**
  The track metadata object (`MP3Metadata`): six nullable text and number
  fields plus the cover-art bytes that the service and the editor panel read
  and set through `getCoverArt` / `setCoverArt`.
*/
module Mp3Metadata {
  import opened Wrappers
  import opened JavaLib

  type Bytes = seq<bv8>

  /** The value an `MP3Metadata` object holds; `None` is a null field. */
  datatype Record = Record(
    title: Option<string>,
    artist: Option<string>,
    album: Option<string>,
    genre: Option<string>,
    year: Option<string>,
    bpm: Option<Int32>,
    coverArt: Option<Bytes>)

  /** Every field null: what the no-argument constructor produces. */
  const Blank: Record := Record(None, None, None, None, None, None, None)

  class Metadata {
    var title: Option<string>
    var artist: Option<string>
    var album: Option<string>
    var genre: Option<string>
    var year: Option<string>
    var bpm: Option<Int32>
    var coverArt: Option<Bytes>

    /** The object's current value. */
    function Value(): Record
      reads this
    {
      Record(title, artist, album, genre, year, bpm, coverArt)
    }

    constructor ()
      ensures Value() == Blank
    {
      title, artist, album, genre, year, bpm, coverArt := None, None, None, None, None, None, None;
    }

    /** The six-argument constructor; it has no cover-art argument, so cover art starts out null. */
    constructor Of(title: Option<string>, artist: Option<string>, album: Option<string>,
                   genre: Option<string>, year: Option<string>, bpm: Option<Int32>)
      ensures Value() == Record(title, artist, album, genre, year, bpm, None)
    {
      this.title := title;
      this.artist := artist;
      this.album := album;
      this.genre := genre;
      this.year := year;
      this.bpm := bpm;
      this.coverArt := None;
    }

    function GetTitle(): (v: Option<string>)
      reads this
      ensures v == Value().title
    { title }

    function GetArtist(): (v: Option<string>)
      reads this
      ensures v == Value().artist
    { artist }

    function GetAlbum(): (v: Option<string>)
      reads this
      ensures v == Value().album
    { album }

    function GetGenre(): (v: Option<string>)
      reads this
      ensures v == Value().genre
    { genre }

    function GetYear(): (v: Option<string>)
      reads this
      ensures v == Value().year
    { year }

    function GetBpm(): (v: Option<Int32>)
      reads this
      ensures v == Value().bpm
    { bpm }

    function GetCoverArt(): (v: Option<Bytes>)
      reads this
      ensures v == Value().coverArt
    { coverArt }


    method SetTitle(title: Option<string>)
      modifies this
      ensures GetTitle() == title
      ensures Value() == old(Value()).(title := title)
    {
      this.title := title;
    }

    method SetArtist(artist: Option<string>)
      modifies this
      ensures GetArtist() == artist
      ensures Value() == old(Value()).(artist := artist)
    {
      this.artist := artist;
    }

    method SetAlbum(album: Option<string>)
      modifies this
      ensures GetAlbum() == album
      ensures Value() == old(Value()).(album := album)
    {
      this.album := album;
    }

    method SetGenre(genre: Option<string>)
      modifies this
      ensures GetGenre() == genre
      ensures Value() == old(Value()).(genre := genre)
    {
      this.genre := genre;
    }

    method SetYear(year: Option<string>)
      modifies this
      ensures GetYear() == year
      ensures Value() == old(Value()).(year := year)
    {
      this.year := year;
    }

    method SetBpm(bpm: Option<Int32>)
      modifies this
      ensures GetBpm() == bpm
      ensures Value() == old(Value()).(bpm := bpm)
    {
      this.bpm := bpm;
    }

    method SetCoverArt(coverArt: Option<Bytes>)
      modifies this
      ensures GetCoverArt() == coverArt
      ensures Value() == old(Value()).(coverArt := coverArt)
    {
      this.coverArt := coverArt;
    }

    /** `toString`. */
    function ToString(): (text: string)
      reads this
      ensures |text| > 12 && text[..12] == "MP3Metadata{" && text[|text| - 1] == '}'
    {
      Render(Value())
    }
  }

  /** A reference as Java's string concatenation shows it: null becomes "null". */
  function ShowText(v: Option<string>): string {
    if v.Some? then v.value else "null"
  }

  function ShowBpm(v: Option<Int32>): string {
    if v.Some? then IntToString(v.value) else "null"
  }

  /** The text `toString` builds for a value. */
  function Render(r: Record): (text: string)
    ensures |text| > 12 && text[..12] == "MP3Metadata{" && text[|text| - 1] == '}'
  {
    "MP3Metadata{"
      + "title='" + ShowText(r.title) + "'"
      + ", artist='" + ShowText(r.artist) + "'"
      + ", album='" + ShowText(r.album) + "'"
      + ", genre='" + ShowText(r.genre) + "'"
      + ", year='" + ShowText(r.year) + "'"
      + ", bpm=" + ShowBpm(r.bpm)
      + "}"
  }

  /** The rendering does not show cover art. */
  lemma RenderIgnoresCoverArt(r: Record, coverArt: Option<Bytes>)
    ensures Render(r.(coverArt := coverArt)) == Render(r)
  {
  }

  /** A null title and the text "null" render alike. */
  lemma RenderNullAsText(r: Record)
    ensures Render(r.(title := None)) == Render(r.(title := Some("null")))
  {
  }
}
