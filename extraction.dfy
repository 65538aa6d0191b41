/**
 * From one located playlist item to one (title, canonical URL) record.
 *
 * The item's link is resolved against the page origin and its `v` query
 * parameter read through the browser's URL API; that parsing is not modelled,
 * and the parameter's value arrives here as `videoId`.
 */
module Extraction {
  import opened Wrappers
  import opened Text

  /** A rendered playlist entry: its `title` attribute and the `v` parameter of its link. */
  datatype ItemElement = ItemElement(titleAttribute: string, videoId: Option<string>)

  /** One extracted video: trimmed title and canonical watch URL. */
  datatype Video = Video(title: string, url: string)

  const WatchUrlPrefix: string := "https://www.youtube.com/watch?v="

  /** How a template literal renders `searchParams.get("v")`: the value, or `null`. */
  function ParamText(videoId: Option<string>): (text: string)
    ensures videoId.Some? ==> text == videoId.value
    ensures videoId.None? ==> text == "null"
  {
    match videoId
    case Some(v) => v
    case None => "null"
  }

  /** The cleaned URL: the fixed watch prefix followed by the rendered `v` parameter. */
  function CanonicalUrl(videoId: Option<string>): (url: string)
    ensures WatchUrlPrefix <= url
    ensures url[|WatchUrlPrefix|..] == ParamText(videoId)
  {
    WatchUrlPrefix + ParamText(videoId)
  }

  /** Reads the video id back out of a watch URL; `None` when the prefix is missing. */
  function VideoIdOf(url: string): (id: Option<string>)
    ensures id.Some? <==> WatchUrlPrefix <= url
    ensures id.Some? ==> url == WatchUrlPrefix + id.value
  {
    if WatchUrlPrefix <= url then Some(url[|WatchUrlPrefix|..]) else None
  }

  /** Every canonical URL starts with the watch prefix, and what follows the prefix is the
      `v` value, or the text `null` when the parameter is absent. */
  lemma CanonicalUrlRoundTrip(videoId: Option<string>)
    ensures WatchUrlPrefix <= CanonicalUrl(videoId)
    ensures VideoIdOf(CanonicalUrl(videoId)) == Some(ParamText(videoId))
    ensures videoId.Some? ==> VideoIdOf(CanonicalUrl(videoId)) == videoId
    ensures videoId.None? ==> VideoIdOf(CanonicalUrl(videoId)) == Some("null")
  {
    var url := CanonicalUrl(videoId);
    assert url[..|WatchUrlPrefix|] == WatchUrlPrefix;
    assert url[|WatchUrlPrefix|..] == ParamText(videoId);
  }

  /** Two items get the same canonical URL exactly when their `v` values agree, except that
      a missing parameter and the literal value `null` cannot be told apart. */
  lemma CanonicalUrlInjective(a: Option<string>, b: Option<string>)
    ensures CanonicalUrl(a) == CanonicalUrl(b) <==>
      (a == b || {a, b} == {None, Some("null")})
  {
    CanonicalUrlRoundTrip(a);
    CanonicalUrlRoundTrip(b);
    if CanonicalUrl(a) == CanonicalUrl(b) {
      assert ParamText(a) == ParamText(b);
    }
  }

  /** The record the `forEach` callback builds for one item. */
  function Extract(element: ItemElement): (video: Video)
    ensures video.title == Trim(element.titleAttribute) && Trimmed(video.title)
    ensures video.url == CanonicalUrl(element.videoId)
  {
    Video(Trim(element.titleAttribute), CanonicalUrl(element.videoId))
  }

  /** The records of all items, in page order. */
  function ExtractAll(elements: seq<ItemElement>): (videos: seq<Video>)
    ensures |videos| == |elements|
  {
    if elements == [] then []
    else ExtractAll(elements[..|elements| - 1]) + [Extract(elements[|elements| - 1])]
  }

  /** Record `i` is the record of item `i`: extraction keeps the page order, one record per
      item. */
  lemma {:induction false} ExtractAllPointwise(elements: seq<ItemElement>)
    ensures forall i :: 0 <= i < |elements| ==> ExtractAll(elements)[i] == Extract(elements[i])
  {
    if elements != [] {
      var n := |elements| - 1;
      var front := ExtractAll(elements[..n]);
      ExtractAllPointwise(elements[..n]);
      assert ExtractAll(elements) == front + [Extract(elements[n])];
      forall i | 0 <= i < |elements| ensures ExtractAll(elements)[i] == Extract(elements[i]) {
        if i < n {
          assert elements[..n][i] == elements[i];
          assert ExtractAll(elements)[i] == front[i];
        }
      }
    }
  }

  /** A record's title has no surrounding whitespace and its URL is a watch URL carrying the
      item's `v` value. */
  lemma ExtractIsCanonical(element: ItemElement)
    ensures Trimmed(Extract(element).title)
    ensures Extract(element).title == Trim(element.titleAttribute)
    ensures VideoIdOf(Extract(element).url) == Some(ParamText(element.videoId))
  {
    CanonicalUrlRoundTrip(element.videoId);
  }
}
