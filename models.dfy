/** The `analyses` table (backend/app/models.py) and the session that
    commits it. A row is a value; the table is a sequence of rows with
    distinct ids, updated in place by the service and the router. */
module Models {
  import opened Wrappers
  import opened Schemas

  /** One row of `analyses`. The three list columns hold JSON text in the
      table; the model keeps the lists that text encodes. */
  datatype Analysis = Analysis(
    id: string,
    userId: string,
    resumeText: string,
    jobDescription: string,
    status: string,
    errorMessage: Option<string>,
    matchScore: Option<real>,
    matchedSkills: Option<seq<string>>,
    missingSkills: Option<seq<string>>,
    suggestions: Option<seq<string>>,
    createdAt: Instant,
    completedAt: Option<Instant>)

  predicate UniqueIds(rows: seq<Analysis>) {
    forall i, j :: 0 <= i < j < |rows| ==> rows[i].id != rows[j].id
  }

  /** Appending a row whose id is new keeps the ids distinct. */
  lemma AppendFreshKeepsUnique(rows: seq<Analysis>, a: Analysis)
    requires UniqueIds(rows)
    requires forall i :: 0 <= i < |rows| ==> rows[i].id != a.id
    ensures UniqueIds(rows + [a])
  {
  }

  /** `select(Analysis).where(Analysis.id == id)`: the position of the row with that id. */
  function Find(rows: seq<Analysis>, id: string): (r: Option<nat>)
    ensures r.Some? ==> r.value < |rows| && rows[r.value].id == id
    ensures r.None? <==> forall i :: 0 <= i < |rows| ==> rows[i].id != id
  {
    if rows == [] then None
    else if rows[|rows| - 1].id == id then Some(|rows| - 1)
    else Find(rows[..|rows| - 1], id)
  }

  class Database {
    /** The table, in insertion order. */
    var rows: seq<Analysis>
    /** Every committed state of the table, oldest first. */
    ghost var commits: seq<seq<Analysis>>

    ghost predicate Valid()
      reads this
    {
      UniqueIds(rows)
    }

    constructor ()
      ensures Valid() && rows == [] && commits == []
    {
      rows := [];
      commits := [];
    }

    /** `await db.commit()`: the current table becomes visible to other sessions. */
    method Commit()
      modifies this`commits
      ensures commits == old(commits) + [rows]
    {
      commits := commits + [rows];
    }
  }
}
