/**
 * The fold that builds the `{title: url}` table: records are inserted in page
 * order, a later record with the same title overwrites the earlier one, and
 * every overwrite bumps a duplicate counter.
 */
module Aggregation {
  import opened Extraction

  /** The distinct titles among `videos`. */
  function Titles(videos: seq<Video>): set<string> {
    if videos == [] then {}
    else Titles(videos[..|videos| - 1]) + {videos[|videos| - 1].title}
  }

  lemma {:induction false} TitleOf(videos: seq<Video>, i: nat)
    requires i < |videos|
    ensures videos[i].title in Titles(videos)
  {
    var n := |videos| - 1;
    if i < n {
      TitleOf(videos[..n], i);
    }
  }

  /** No later record carries the same title as record `i`. */
  predicate IsLastOfTitle(videos: seq<Video>, i: nat)
    requires i < |videos|
  {
    forall j :: i < j < |videos| ==> videos[j].title != videos[i].title
  }

  predicate DistinctTitles(videos: seq<Video>) {
    forall i, j :: 0 <= i < j < |videos| ==> videos[i].title != videos[j].title
  }

  /** `table` is what last-write-wins insertion of `videos` yields: its keys are exactly the
      titles, and each title maps to the URL of the last record carrying it. */
  predicate Collects(table: map<string, string>, videos: seq<Video>)
    ensures Collects(table, videos) ==> |table.Keys| <= |videos|
  {
    TitleCount(videos);
    table.Keys == Titles(videos)
    && forall i :: 0 <= i < |videos| && IsLastOfTitle(videos, i) ==>
         videos[i].title in table && table[videos[i].title] == videos[i].url
  }

  /** Position of the last record with title `t`. */
  function LastIndexOf(videos: seq<Video>, t: string): (k: nat)
    requires t in Titles(videos)
    ensures k < |videos| && videos[k].title == t && IsLastOfTitle(videos, k)
  {
    var n := |videos| - 1;
    if videos[n].title == t then n else LastIndexOf(videos[..n], t)
  }

  /** `Collects` pins the table down: at most one table collects a given record sequence,
      so the export does not depend on anything but the page's items. */
  lemma CollectsUnique(a: map<string, string>, b: map<string, string>, videos: seq<Video>)
    requires Collects(a, videos) && Collects(b, videos)
    ensures a == b
  {
    forall t | t in a.Keys ensures a[t] == b[t] {
      var k := LastIndexOf(videos, t);
    }
  }

  /** Every title in a collected table maps to the URL of its last occurrence. */
  lemma CollectsLastWins(table: map<string, string>, videos: seq<Video>, t: string)
    requires Collects(table, videos) && t in table
    ensures table[t] == videos[LastIndexOf(videos, t)].url
  {
  }

  /** There are never more distinct titles than records, and as many exactly when no title
      repeats. */
  lemma {:induction false} TitleCount(videos: seq<Video>)
    ensures |Titles(videos)| <= |videos|
    ensures |Titles(videos)| == |videos| <==> DistinctTitles(videos)
  {
    if videos != [] {
      var n := |videos| - 1;
      var front := videos[..n];
      var last := videos[n].title;
      TitleCount(front);
      if last in Titles(front) {
        var i := LastIndexOf(front, last);
        assert videos[i].title == videos[n].title;
      } else {
        assert |Titles(videos)| == |Titles(front)| + 1;
        if DistinctTitles(front) {
          forall i, j | 0 <= i < j < |videos| ensures videos[i].title != videos[j].title {
            if j == n {
              TitleOf(front, i);
            } else {
              assert front[i] == videos[i] && front[j] == videos[j];
            }
          }
        } else {
          var i, j :| 0 <= i < j < n && front[i].title == front[j].title;
          assert videos[i].title == videos[j].title;
        }
      }
    }
  }

  /** How many inserts hit a title that was already a key: records minus distinct titles.
      The first record always creates a key, so a non-empty page never overwrites on every
      insert. */
  function Overwrites(videos: seq<Video>): (n: nat)
    ensures videos != [] ==> n < |videos|
  {
    TitleCount(videos);
    if videos == [] then 0
    else
      TitleOf(videos, |videos| - 1);
      |videos| - |Titles(videos)|
  }

  /** The duplicate warning is issued exactly when some title repeats. */
  lemma OverwritesZeroIffDistinct(videos: seq<Video>)
    ensures Overwrites(videos) == 0 <==> DistinctTitles(videos)
  {
    TitleCount(videos);
  }

  /** The `forEach` callback: extract the item's record, count an overwrite if its title is
      already a key, then store its URL under the title. */
  method AddVideo(videoData: map<string, string>, duplicateCount: nat, element: ItemElement)
    returns (newData: map<string, string>, newCount: nat)
    ensures newData == videoData[Extract(element).title := Extract(element).url]
    ensures newData.Keys == videoData.Keys + {Extract(element).title}
    ensures Extract(element).title in newData && newData[Extract(element).title] == Extract(element).url
    ensures forall t :: t in videoData && t != Extract(element).title ==> t in newData && newData[t] == videoData[t]
    ensures newCount == if Extract(element).title in videoData then duplicateCount + 1 else duplicateCount
  {
    var title := Text.Trim(element.titleAttribute);
    var cleanUrl := CanonicalUrl(element.videoId);
    newCount := duplicateCount;
    if title in videoData {
      newCount := newCount + 1;
    }
    newData := videoData[title := cleanUrl];
  }

  /** Titles A, B, A with URLs u1, u2, u3: the table is A to u3 and B to u2, and one
      insert overwrote an existing key. */
  lemma DuplicateTitleExample(table: map<string, string>, u1: string, u2: string, u3: string)
    requires Collects(table, [Video("A", u1), Video("B", u2), Video("A", u3)])
    ensures table == map["A" := u3, "B" := u2]
    ensures Overwrites([Video("A", u1), Video("B", u2), Video("A", u3)]) == 1
  {
    var va, vb, vc := Video("A", u1), Video("B", u2), Video("A", u3);
    var videos := [va, vb, vc];
    assert videos[..2] == [va, vb] && [va, vb][..1] == [va] && [va][..0] == [];
    assert Titles([va]) == {"A"};
    assert Titles([va, vb]) == {"A", "B"};
    assert Titles(videos) == {"A", "B"};
    assert IsLastOfTitle(videos, 1) && IsLastOfTitle(videos, 2);
    assert table["A"] == u3 && table["B"] == u2;
    assert table.Keys == {"A", "B"};
    assert |Titles(videos)| == 2;
  }

  /** One insertion keeps the fold's invariant: if `table` collects `front`, storing the URL
      of `video` under its title collects `front + [video]`, and the counter rises by one
      exactly when that title was already a key. */
  lemma CollectsStep(table: map<string, string>, front: seq<Video>, video: Video)
    requires Collects(table, front)
    ensures Collects(table[video.title := video.url], front + [video])
    ensures Overwrites(front + [video]) == Overwrites(front) + (if video.title in table then 1 else 0)
  {
    var videos := front + [video];
    var n := |front|;
    var updated := table[video.title := video.url];
    assert videos[..n] == front;
    forall i | 0 <= i < |videos| && IsLastOfTitle(videos, i)
      ensures videos[i].title in updated && updated[videos[i].title] == videos[i].url
    {
      if i < n {
        assert front[i] == videos[i] && videos[n] == video;
        assert videos[i].title != video.title;
        assert IsLastOfTitle(front, i);
        assert table[front[i].title] == front[i].url;
      } else {
        assert videos[i] == video;
      }
    }
    assert Titles(videos) == Titles(front) + {video.title};
    if video.title !in table {
      assert |Titles(videos)| == |Titles(front)| + 1;
    }
  }

  /** The whole fold over the located items, starting from an empty table and a zero counter. */
  method CollectVideos(elements: seq<ItemElement>) returns (videoData: map<string, string>, duplicateCount: nat)
    ensures Collects(videoData, ExtractAll(elements))
    ensures duplicateCount == Overwrites(ExtractAll(elements))
  {
    videoData, duplicateCount := map[], 0;
    var i := 0;
    while i < |elements|
      invariant 0 <= i <= |elements|
      invariant Collects(videoData, ExtractAll(elements[..i]))
      invariant duplicateCount == Overwrites(ExtractAll(elements[..i]))
    {
      ghost var video := Extract(elements[i]);
      assert elements[..i + 1][..i] == elements[..i];
      assert ExtractAll(elements[..i + 1]) == ExtractAll(elements[..i]) + [video];
      CollectsStep(videoData, ExtractAll(elements[..i]), video);
      videoData, duplicateCount := AddVideo(videoData, duplicateCount, elements[i]);
      i := i + 1;
    }
    assert elements[..i] == elements;
  }
}
