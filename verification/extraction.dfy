/** Picking the result address out of a completed job report. */
module Extraction {
  import opened Wrappers
  import opened Text

  /** One result entry: any of its three address fields may be absent. */
  datatype ResultItem = ResultItem(mediaUrl: Option<string>, image: Option<string>, video: Option<string>)

  /** The report's `result`: absent or null, a single entry, or an array of entries. */
  datatype ResultField = Absent | Single(item: ResultItem) | Many(items: seq<ResultItem>)

  /** Index `i` holds the first truthy value of `vs`. */
  ghost predicate IsFirstTruthy(vs: seq<Option<string>>, i: int) {
    0 <= i < |vs| && Truthy(vs[i]) && forall j :: 0 <= j < i ==> !Truthy(vs[j])
  }

  /** `vs[0] || vs[1] || ...` when the answer is only tested for truthiness:
      the first truthy value, or None when there is none. */
  function FirstTruthy(vs: seq<Option<string>>): (r: Option<string>)
    ensures r.Some? <==> exists i :: 0 <= i < |vs| && Truthy(vs[i])
    ensures r.Some? ==> exists i :: IsFirstTruthy(vs, i) && vs[i] == r
    decreases |vs|
  {
    if vs == [] then None
    else if Truthy(vs[0]) then
      assert IsFirstTruthy(vs, 0);
      vs[0]
    else
      var r := FirstTruthy(vs[1..]);
      FirstTruthyAfterFalsyHead(vs, r);
      r
  }

  /** Behind a falsy head, the first truthy value of the tail is the first of the whole. */
  lemma FirstTruthyAfterFalsyHead(vs: seq<Option<string>>, r: Option<string>)
    requires vs != [] && !Truthy(vs[0])
    requires r.Some? ==> exists i :: IsFirstTruthy(vs[1..], i) && vs[1..][i] == r
    ensures (exists i :: 0 <= i < |vs| && Truthy(vs[i])) <==> (exists i :: 0 <= i < |vs| - 1 && Truthy(vs[1..][i]))
    ensures r.Some? ==> exists i :: IsFirstTruthy(vs, i) && vs[i] == r
  {
    assert forall i :: 0 < i < |vs| ==> vs[i] == vs[1..][i - 1];
    if r.Some? {
      var i :| IsFirstTruthy(vs[1..], i) && vs[1..][i] == r;
      assert IsFirstTruthy(vs, i + 1);
    }
  }

  /** `Array.isArray(r) ? r[0] : r`: the entry the page looks at. */
  function SelectedItem(result: ResultField): Option<ResultItem> {
    match result
    case Absent => None
    case Single(item) => Some(item)
    case Many(items) => if items == [] then None else Some(items[0])
  }

  /** `item?.mediaUrl || item?.image || item?.video`, None standing for a falsy answer. */
  function ExtractResultUrl(result: ResultField): (url: Option<string>)
    ensures url.Some? ==> url.value != ""
  {
    match SelectedItem(result)
    case None => None
    case Some(item) => FirstTruthy([item.mediaUrl, item.image, item.video])
  }

  /** The address comes from the first entry of an array and from the
      result itself otherwise; an empty array or an absent result gives none. */
  lemma ExtractionUsesFirstEntry(result: ResultField)
    ensures result.Absent? ==> ExtractResultUrl(result).None?
    ensures result.Many? && result.items == [] ==> ExtractResultUrl(result).None?
    ensures result.Many? && result.items != [] ==>
              ExtractResultUrl(result) == ExtractResultUrl(Single(result.items[0]))
  {
  }

  /** Precedence: `mediaUrl`, then `image`, then `video`, each used only when
      present and non-empty; with none of them, there is no address. */
  lemma ExtractionPrecedence(item: ResultItem)
    ensures Truthy(item.mediaUrl) ==> ExtractResultUrl(Single(item)) == item.mediaUrl
    ensures !Truthy(item.mediaUrl) && Truthy(item.image) ==> ExtractResultUrl(Single(item)) == item.image
    ensures !Truthy(item.mediaUrl) && !Truthy(item.image) ==>
              ExtractResultUrl(Single(item)) == if Truthy(item.video) then item.video else None
    ensures ExtractResultUrl(Single(item)).None? <==>
              !Truthy(item.mediaUrl) && !Truthy(item.image) && !Truthy(item.video)
  {
    var vs := [item.mediaUrl, item.image, item.video];
    var r := FirstTruthy(vs);
    if r.Some? {
      var i :| IsFirstTruthy(vs, i) && vs[i] == r;
      if i == 2 {
        assert !Truthy(vs[0]) && !Truthy(vs[1]);
      } else if i == 1 {
        assert !Truthy(vs[0]);
      }
    } else {
      assert !Truthy(vs[0]) && !Truthy(vs[1]) && !Truthy(vs[2]);
    }
  }
}
