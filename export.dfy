/**
 * The playlist label, the single-key export object, and the download file name
 * derived from the label.
 */
module Export {
  import opened Wrappers
  import opened Text

  const UntitledPlaylist: string := "Untitled Playlist"
  const DefaultFileStem: string := "playlist"
  const JsonExtension: string := ".json"

  /** Looks up nothing itself: `titleElement` is the text content of the element the title
      selector found, if any. Starts from the default label and replaces it by the trimmed
      text when the element exists; `missing` reports the fallback, which is warned about. */
  method ResolveLabel(titleElement: Option<string>) returns (playlistTitle: string, missing: bool)
    ensures missing <==> titleElement.None?
    ensures titleElement.None? ==> playlistTitle == UntitledPlaylist
    ensures titleElement.Some? ==> playlistTitle == Trim(titleElement.value)
    ensures Trimmed(playlistTitle)
  {
    playlistTitle := UntitledPlaylist;
    missing := titleElement.None?;
    if titleElement.Some? {
      playlistTitle := Trim(titleElement.value);
    }
  }

  /** `{[playlistTitle]: videoData}`. */
  function ExportObject(playlistTitle: string, videoData: map<string, string>): (exportData: map<string, map<string, string>>)
    ensures exportData.Keys == {playlistTitle} && exportData[playlistTitle] == videoData
  {
    map[playlistTitle := videoData]
  }

  /** Steps 4 to 6 of the script for a finished table: resolve the label, wrap the table
      under it, and name the download after the sanitised label. */
  method PrepareExport(videoData: map<string, string>, titleElement: Option<string>)
    returns (playlistTitle: string, exportData: map<string, map<string, string>>, fileName: string, missing: bool)
    ensures missing <==> titleElement.None?
    ensures playlistTitle == if titleElement.Some? then Trim(titleElement.value) else UntitledPlaylist
    ensures exportData.Keys == {playlistTitle} && exportData[playlistTitle] == videoData
    ensures fileName == DownloadName(playlistTitle)
  {
    playlistTitle, missing := ResolveLabel(titleElement);
    exportData := ExportObject(playlistTitle, videoData);
    var sanitizedFilename := Sanitize(playlistTitle);
    fileName := sanitizedFilename + JsonExtension;
  }

  /** One character under `replace(/[^a-z0-9_]/gi, "-")`. */
  function ReplaceChar(c: char): char {
    if IsWordChar(c) then c else '-'
  }

  /** `playlistTitle.replace(/[^a-z0-9_]/gi, "-")`: every character outside `[A-Za-z0-9_]` becomes `-`. */
  function ReplaceNonWord(s: string): (r: string)
    ensures |r| == |s|
    ensures forall i :: 0 <= i < |s| ==> r[i] == ReplaceChar(s[i])
  {
    if s == [] then [] else [ReplaceChar(s[0])] + ReplaceNonWord(s[1..])
  }

  /** `toLowerCase()` on a string of ASCII characters. */
  function ToLowerCase(s: string): (r: string)
    ensures |r| == |s|
    ensures forall i :: 0 <= i < |s| ==> r[i] == AsciiLower(s[i])
  {
    if s == [] then [] else [AsciiLower(s[0])] + ToLowerCase(s[1..])
  }

  /** The characters a sanitised file stem may contain: `[a-z0-9_-]`. */
  predicate IsFileStemChar(c: char) {
    ('a' <= c <= 'z') || ('0' <= c <= '9') || c == '_' || c == '-'
  }

  /** `playlistTitle.replace(/[^a-z0-9_]/gi, "-").toLowerCase() || "playlist"`. */
  function Sanitize(playlistTitle: string): (stem: string)
    ensures |stem| > 0
    ensures forall i :: 0 <= i < |stem| ==> IsFileStemChar(stem[i])
  {
    var lowered := ToLowerCase(ReplaceNonWord(playlistTitle));
    if lowered == [] then
      assert DefaultFileStem == ['p', 'l', 'a', 'y', 'l', 'i', 's', 't'];
      DefaultFileStem
    else
      lowered
  }

  /** How one label character appears in the file stem. */
  function SanitizeChar(c: char): (d: char)
    ensures IsWordChar(c) ==> d == AsciiLower(c)
    ensures !IsWordChar(c) ==> d == '-'
  {
    AsciiLower(ReplaceChar(c))
  }

  /** A non-empty label keeps its length, position for position: word characters are
      lower-cased and every other character becomes `-`. Only the empty label falls back to
      `playlist`. */
  lemma SanitizePointwise(playlistTitle: string)
    ensures playlistTitle == [] ==> Sanitize(playlistTitle) == DefaultFileStem
    ensures playlistTitle != [] ==> |Sanitize(playlistTitle)| == |playlistTitle|
    ensures playlistTitle != [] ==> forall i :: 0 <= i < |playlistTitle| ==> Sanitize(playlistTitle)[i] == SanitizeChar(playlistTitle[i])
  {
  }

  /** A string already made of file-stem characters is its own file stem. */
  lemma SanitizeFixesStems(stem: string)
    requires stem != []
    requires forall i :: 0 <= i < |stem| ==> IsFileStemChar(stem[i])
    ensures Sanitize(stem) == stem
  {
    SanitizePointwise(stem);
  }

  /** Sanitising a sanitised name changes nothing. */
  lemma SanitizeIdempotent(playlistTitle: string)
    ensures Sanitize(Sanitize(playlistTitle)) == Sanitize(playlistTitle)
  {
    SanitizeFixesStems(Sanitize(playlistTitle));
  }

  /** The name the download is saved under. */
  function DownloadName(playlistTitle: string): (name: string)
    ensures |name| > |JsonExtension| && name[|name| - |JsonExtension|..] == JsonExtension
    ensures name[..|name| - |JsonExtension|] == Sanitize(playlistTitle)
  {
    Sanitize(playlistTitle) + JsonExtension
  }

  /** The sanitiser works character by character, so it distributes over concatenation of
      non-empty parts. */
  lemma SanitizeConcat(a: string, b: string)
    requires a != [] && b != []
    ensures Sanitize(a + b) == Sanitize(a) + Sanitize(b)
  {
    SanitizePointwise(a);
    SanitizePointwise(b);
    SanitizePointwise(a + b);
    var left, right := Sanitize(a), Sanitize(b);
    forall i | 0 <= i < |a + b| ensures Sanitize(a + b)[i] == (left + right)[i] {
      if i < |a| {
        assert (a + b)[i] == a[i];
      } else {
        assert (a + b)[i] == b[i - |a|];
      }
    }
  }

  /** The file stem of a label split in two is the stems of the two parts, joined. */
  lemma SanitizeParts(title: string, front: string, back: string, frontStem: string, backStem: string)
    requires front != [] && back != [] && title == front + back
    requires Sanitize(front) == frontStem && Sanitize(back) == backStem
    ensures Sanitize(title) == frontStem + backStem
  {
    SanitizeConcat(front, back);
  }

  lemma StemOfUntitled(word: string)
    requires word == "Untitled"
    ensures Sanitize(word) == "untitled"
  {
  }

  lemma StemOfSpacePlaylist(word: string)
    requires word == " Playlist"
    ensures Sanitize(word) == "-playlist"
  {
  }

  /** The default label, `Untitled Playlist`, gives the file `untitled-playlist.json`. */
  lemma UntitledPlaylistFileName(title: string)
    requires title == "Untitled Playlist"
    ensures Sanitize(title) == "untitled-playlist"
  {
    SplitUntitledPlaylist(title);
    StemOfUntitled("Untitled");
    StemOfSpacePlaylist(" Playlist");
    SanitizeParts(title, "Untitled", " Playlist", "untitled", "-playlist");
    JoinUntitledPlaylist(Sanitize(title));
  }

  lemma SplitUntitledPlaylist(title: string)
    requires title == "Untitled Playlist"
    ensures title == "Untitled" + " Playlist"
  {
  }

  lemma JoinUntitledPlaylist(stem: string)
    requires stem == "untitled" + "-playlist"
    ensures stem == "untitled-playlist"
  {
  }

  /** ... and the download is saved as `untitled-playlist.json`. */
  lemma UntitledPlaylistDownloadName(title: string)
    requires title == "Untitled Playlist"
    ensures DownloadName(title) == "untitled-playlist.json"
  {
    UntitledPlaylistFileName(title);
    JoinJson(DownloadName(title));
  }

  lemma JoinJson(name: string)
    requires name == "untitled-playlist" + JsonExtension
    ensures name == "untitled-playlist.json"
  {
  }

  lemma StemOfLoFiBea(word: string)
    requires word == "Lo-Fi Bea"
    ensures Sanitize(word) == "lo-fi-bea"
  {
  }

  lemma StemOfTs2024(word: string)
    requires word == "ts! 2024"
    ensures Sanitize(word) == "ts--2024"
  {
  }

  /** Spaces and punctuation each become one `-`, letters are lower-cased. */
  lemma PunctuatedLabelFileName(title: string)
    requires title == "Lo-Fi Beats! 2024"
    ensures Sanitize(title) == "lo-fi-beats--2024"
  {
    SplitLoFiBeats(title);
    StemOfLoFiBea("Lo-Fi Bea");
    StemOfTs2024("ts! 2024");
    SanitizeParts(title, "Lo-Fi Bea", "ts! 2024", "lo-fi-bea", "ts--2024");
    JoinLoFiBeats(Sanitize(title));
  }

  lemma SplitLoFiBeats(title: string)
    requires title == "Lo-Fi Beats! 2024"
    ensures title == "Lo-Fi Bea" + "ts! 2024"
  {
  }

  lemma JoinLoFiBeats(stem: string)
    requires stem == "lo-fi-bea" + "ts--2024"
    ensures stem == "lo-fi-beats--2024"
  {
  }

  /** A title element whose text is only whitespace gives the empty label, and so the
      fallback file name `playlist.json`. */
  lemma BlankTitleFileName(text: string)
    requires AllWhitespace(text)
    ensures Trim(text) == []
    ensures DownloadName(Trim(text)) == "playlist.json"
  {
    TrimAllWhitespace(text);
  }
}
