/** The table of sent and received activities (lemmy_db/src/activity.rs). It has no unique index. */
module Activities {
  import opened Apub

  datatype ActivityRow = ActivityRow(apId: Url, local: bool, sensitive: bool)

  predicate Known(rows: seq<ActivityRow>, apId: Url) {
    exists r :: r in rows && r.apId == apId
  }

  class ActivityTable {
    var rows: seq<ActivityRow>

    constructor ()
      ensures rows == []
    {
      rows := [];
    }

    method Insert(apId: Url, local: bool, sensitive: bool)
      modifies this
      ensures rows == old(rows) + [ActivityRow(apId, local, sensitive)]
    {
      rows := rows + [ActivityRow(apId, local, sensitive)];
    }
  }
}
