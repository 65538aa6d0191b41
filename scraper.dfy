/**
 * The script's top level: stop when the page shows no playlist items;
 * otherwise fold the items into the title table, resolve the playlist label,
 * wrap the table under it and name the download after the sanitised label.
 *
 * The two DOM queries are inputs: `elements` is what the item selector found, in
 * document order, and `titleElement` the text of what the title selector found.
 */
module Scraper {
  import opened Wrappers
  import opened Text
  import opened Extraction
  import opened Aggregation
  import opened Export

  /** The non-fatal conditions the script reports on the console, in the order it reports them. */
  datatype Warning = DuplicateTitles(count: nat) | TitleElementMissing

  datatype Outcome =
    | NoVideosFound
    | Export(playlistTitle: string, exportData: map<string, map<string, string>>,
             fileName: string, warnings: seq<Warning>)

  /** The warnings of a run whose fold counted `duplicateCount` overwrites, with or without a
      title element: the duplicate summary when the count is positive, then the fallback
      notice when the title element is missing. */
  function Warnings(duplicateCount: nat, titleFound: bool): (warnings: seq<Warning>)
    ensures |warnings| == (if duplicateCount > 0 then 1 else 0) + (if titleFound then 0 else 1)
    ensures DuplicateTitles(duplicateCount) in warnings <==> duplicateCount > 0
    ensures TitleElementMissing in warnings <==> !titleFound
    ensures duplicateCount > 0 ==> warnings[0] == DuplicateTitles(duplicateCount)
    ensures !titleFound ==> warnings[|warnings| - 1] == TitleElementMissing
  {
    (if duplicateCount > 0 then [DuplicateTitles(duplicateCount)] else [])
    + (if titleFound then [] else [TitleElementMissing])
  }

  method Scrape(elements: seq<ItemElement>, titleElement: Option<string>) returns (outcome: Outcome)
    ensures outcome.NoVideosFound? <==> elements == []
    ensures outcome.Export? ==>
      && outcome.playlistTitle == (if titleElement.Some? then Trim(titleElement.value) else UntitledPlaylist)
      && outcome.exportData.Keys == {outcome.playlistTitle}
      && Collects(outcome.exportData[outcome.playlistTitle], ExtractAll(elements))
      && outcome.fileName == DownloadName(outcome.playlistTitle)
      && outcome.warnings == Warnings(Overwrites(ExtractAll(elements)), titleElement.Some?)
  {
    if |elements| == 0 {
      return NoVideosFound;
    }
    var videoData, duplicateCount := CollectVideos(elements);
    var playlistTitle, exportData, fileName, missing := PrepareExport(videoData, titleElement);
    outcome := Export(playlistTitle, exportData, fileName, Warnings(duplicateCount, !missing));
  }

  /** The duplicate warning appears exactly when two records share a title, and then carries
      the number of overwritten records. */
  lemma DuplicateWarningIffRepeatedTitle(videos: seq<Video>, titleFound: bool)
    ensures (exists n :: DuplicateTitles(n) in Warnings(Overwrites(videos), titleFound)) <==> !DistinctTitles(videos)
    ensures forall n :: DuplicateTitles(n) in Warnings(Overwrites(videos), titleFound) ==>
      n == |videos| - |Titles(videos)| && n > 0
  {
    OverwritesZeroIffDistinct(videos);
    if !DistinctTitles(videos) {
      assert DuplicateTitles(Overwrites(videos)) in Warnings(Overwrites(videos), titleFound);
    }
  }
}
