/**
 * The truncated previews of a result's summary and collections shown in the block
 * layout of the result list.
 */
module Preview {
  import opened Wrappers
  import Text

  /** `text.length > max ? text.substring(0, max) + '...' : text`: the text itself when it
    * fits, and otherwise its first `max` characters and an ellipsis; either way it starts with
    * the first min(|text|, max) characters of the text and is at most `max + 3` long. */
  function Preview(text: string, max: nat): (r: string)
    ensures |text| <= max ==> r == text
    ensures |text| > max ==> |r| == max + 3 && r[..max] == text[..max] && r[max..] == "..."
    ensures |r| <= max + 3
    ensures var n := if |text| < max then |text| else max;
      n <= |r| && r[..n] == text[..n]
  {
    if |text| > max then text[..max] + "..." else text
  }

  /** A long text whose first `max` characters are followed by exactly "..." previews as itself,
    * so the preview equals the text without the text fitting. */
  lemma PreviewOfEllipsis()
    ensures Preview("ab...", 2) == "ab..."
  {
  }

  /** The summary preview: `''` when the record has no summary, else the preview of its
    * string form. */
  function SummaryPreview(summary: Option<string>, max: nat): (r: string)
    ensures summary.None? ==> r == ""
    ensures summary.Some? ==> |r| <= max + 3 && (|summary.value| <= max ==> r == summary.value)
  {
    match summary
    case None => ""
    case Some(s) => Preview(s, max)
  }

  /** `collections != ""` for an array of strings: JavaScript compares the array's
    * comma-joined string form with the empty string. */
  predicate HasCollections(collections: seq<string>) {
    Text.Join(collections, ",") != ""
  }

  /** The collections preview: the preview of the list joined with `', '`, or `None` when the
    * loose comparison with `""` says there are none (the code then assigns nothing). */
  function CollectionsPreview(collections: seq<string>, max: nat): (r: Option<string>)
    ensures r.Some? <==> |collections| >= 2 || (|collections| == 1 && collections[0] != "")
    ensures r.Some? ==> |r.value| <= max + 3
    ensures r.Some? && |Text.Join(collections, ", ")| <= max ==> r.value == Text.Join(collections, ", ")
  {
    HasCollectionsIff(collections);
    if HasCollections(collections) then Some(Preview(Text.Join(collections, ", "), max)) else None
  }

  /** The loose comparison treats a list as empty exactly when it has no elements or a single
    * empty one. */
  lemma {:induction false} HasCollectionsIff(collections: seq<string>)
    ensures HasCollections(collections) <==> |collections| >= 2 || (|collections| == 1 && collections[0] != "")
  {
    var n := |collections|;
    if n >= 2 {
      var init := collections[..n - 1];
      assert |Text.Join(collections, ",")| >= 1 by {
        assert Text.Join(collections, ",") == Text.Join(init, ",") + "," + collections[n - 1];
      }
    }
  }
}
