/**
 * The link table's selection state: which row is expanded, and which row's
 * QR-code and analytics dialogs are open. Each slot holds a row id or nothing
 * (`null`); the QR dialog shows the short URL of the first row with that id.
 */
module UrlList {
  import opened Seqs
  import opened Js

  /** The fields of a table row that the selection logic reads. */
  datatype Row = Row(id: string, shortUrl: string)

  /** `toggleExpand(id)`: collapses the row if it is the expanded one, otherwise expands it instead. */
  function Toggle(expanded: Option<string>, id: string): (r: Option<string>)
    ensures r.None? <==> expanded == Some(id)
    ensures r.Some? ==> r.value == id
  {
    if expanded == Some(id) then None else Some(id)
  }

  /** The details row of `id` is shown. */
  predicate IsExpanded(expanded: Option<string>, id: string)
  {
    expanded == Some(id)
  }

  /** Toggling the same row twice restores a collapsed table, and leaves an expanded row expanded. */
  lemma ToggleTwice(expanded: Option<string>, id: string)
    ensures expanded.None? ==> Toggle(Toggle(expanded, id), id) == None
    ensures Toggle(Toggle(expanded, id), id) == if expanded == Some(id) then Some(id) else None
  {
  }

  /** At most one row is expanded: two expanded rows of a table with distinct ids are the same row. */
  lemma AtMostOneExpanded(rows: seq<Row>, expanded: Option<string>, i: nat, j: nat)
    requires forall a, b :: 0 <= a < b < |rows| ==> rows[a].id != rows[b].id
    requires i < |rows| && j < |rows|
    requires IsExpanded(expanded, rows[i].id) && IsExpanded(expanded, rows[j].id)
    ensures i == j
  {
  }

  /** `urls.find(u => u.id === id)`: the first row with the id, if any. */
  function FindById(rows: seq<Row>, id: Option<string>): (r: Option<Row>)
    ensures r.None? <==> forall k :: 0 <= k < |rows| ==> Some(rows[k].id) != id
    ensures r.Some? ==> exists k :: (0 <= k < |rows| && rows[k] == r.value && Some(r.value.id) == id &&
      forall m :: 0 <= m < k ==> Some(rows[m].id) != id)
  {
    if rows == [] then None
    else if Some(rows[0].id) == id then Some(rows[0])
    else
      var r := FindById(rows[1..], id);
      assert forall k :: 1 <= k < |rows| ==> rows[k] == rows[1..][k - 1];
      if r.Some? then
        var k :| 0 <= k < |rows| - 1 && rows[1..][k] == r.value && Some(r.value.id) == id &&
          forall m :: 0 <= m < k ==> Some(rows[1..][m].id) != id;
        assert rows[k + 1] == r.value;
        assert forall m :: 1 <= m < k + 1 ==> Some(rows[m].id) != id by {
          forall m | 1 <= m < k + 1 ensures Some(rows[m].id) != id {
            assert rows[m] == rows[1..][m - 1];
          }
        }
        r
      else r
  }

  /** `urls.find(u => u.id === showQR)?.shortUrl || ''`: the text the QR code encodes. */
  function QrValue(rows: seq<Row>, showQR: Option<string>): (v: string)
    ensures v != "" ==> exists k :: 0 <= k < |rows| && Some(rows[k].id) == showQR && rows[k].shortUrl == v
    ensures showQR.None? ==> v == ""
  {
    var found := FindById(rows, showQR);
    if found.Some? && found.value.shortUrl != "" then found.value.shortUrl else ""
  }

  /** The QR value is the short URL of the first row carrying the requested id. */
  lemma QrValueIsFirstMatch(rows: seq<Row>, showQR: Option<string>, k: nat)
    requires k < |rows| && Some(rows[k].id) == showQR
    requires forall m :: 0 <= m < k ==> Some(rows[m].id) != showQR
    ensures QrValue(rows, showQR) == rows[k].shortUrl
  {
    var found := FindById(rows, showQR);
    var j :| 0 <= j < |rows| && rows[j] == found.value && Some(found.value.id) == showQR &&
      forall m :: 0 <= m < j ==> Some(rows[m].id) != showQR;
    assert j == k;
  }

  /** `{showQR && ...}`: the QR dialog is rendered only for a non-empty id. */
  predicate QrDialogShown(showQR: Option<string>)
  {
    Truthy(showQR)
  }

  /** The three selection slots of the table. */
  class Selection {
    var expandedUrl: Option<string>
    var showQR: Option<string>
    var showAnalytics: Option<string>

    constructor()
      ensures expandedUrl.None? && showQR.None? && showAnalytics.None?
    {
      expandedUrl := None;
      showQR := None;
      showAnalytics := None;
    }

    /** `toggleExpand`. */
    method ToggleExpand(id: string)
      modifies this
      ensures expandedUrl == Toggle(old(expandedUrl), id)
      ensures showQR == old(showQR) && showAnalytics == old(showAnalytics)
    {
      if expandedUrl == Some(id) {
        expandedUrl := None;
      } else {
        expandedUrl := Some(id);
      }
    }

    /** The QR button of row `id`. */
    method OpenQR(id: string)
      modifies this
      ensures showQR == Some(id)
      ensures expandedUrl == old(expandedUrl) && showAnalytics == old(showAnalytics)
    {
      showQR := Some(id);
    }

    /** The close button of the QR dialog. */
    method CloseQR()
      modifies this
      ensures showQR.None? && !QrDialogShown(showQR)
      ensures expandedUrl == old(expandedUrl) && showAnalytics == old(showAnalytics)
    {
      showQR := None;
    }

    /** The analytics button of row `id`. */
    method OpenAnalytics(id: string)
      modifies this
      ensures showAnalytics == Some(id)
      ensures expandedUrl == old(expandedUrl) && showQR == old(showQR)
    {
      showAnalytics := Some(id);
    }

    /** The close action of the analytics dialog. */
    method CloseAnalytics()
      modifies this
      ensures showAnalytics.None?
      ensures expandedUrl == old(expandedUrl) && showQR == old(showQR)
    {
      showAnalytics := None;
    }
  }
}
