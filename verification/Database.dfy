/** The platform database as the service sees it: documents, and a score table that only grows (db/score.py). */
module Database {
  import opened Prelude
  import opened Candidates

  datatype Score = Score(user: int, role: int, doc: int)

  /** What score.save does: stores the score, raises AlreadyScored, or raises on a foreign key. */
  datatype Saved = Stored | Duplicate | Dangling

  datatype Snapshot = Snapshot(docs: map<int, Document>, physical: seq<int>, scores: set<Score>)

  function ScoredBy(db: Snapshot, user: int): set<int> {
    set s | s in db.scores && s.user == user :: s.doc
  }

  /** The answer of candidates_for_user's SELECT on a snapshot of the database. */
  function Select(db: Snapshot, user: int, sel: Selection): seq<int> {
    Answer(db.docs, ScoredBy(db, user), sel, db.physical)
  }

  /** A user has scored a document exactly when some role of that user, and of nobody else, has. */
  lemma ScoredByExact(db: Snapshot, user: int, doc: int)
    ensures doc in ScoredBy(db, user) <==> exists role :: Score(user, role, doc) in db.scores
  {
    if role :| Score(user, role, doc) in db.scores {
      assert Score(user, role, doc).doc in ScoredBy(db, user);
    }
    if doc in ScoredBy(db, user) {
      var s :| s in db.scores && s.user == user && s.doc == doc;
      assert s == Score(user, s.role, doc);
    }
  }

  /** A score counts for its own user only: it changes what nobody else has scored, and no one else's answer. */
  lemma ScoreCountsForItsUser(db: Snapshot, score: Score, user: int, sel: Selection)
    ensures var db' := db.(scores := db.scores + {score});
            && ScoredBy(db', score.user) == ScoredBy(db, score.user) + {score.doc}
            && (user != score.user ==>
                  ScoredBy(db', user) == ScoredBy(db, user) && Select(db', user, sel) == Select(db, user, sel))
  {
    var db' := db.(scores := db.scores + {score});
    forall d ensures d in ScoredBy(db', score.user) <==> d in ScoredBy(db, score.user) + {score.doc} {
      ScoredByExact(db, score.user, d);
      ScoredByExact(db', score.user, d);
      if d == score.doc { assert Score(score.user, score.role, d) == score; }
    }
    if user != score.user {
      forall d ensures d in ScoredBy(db', user) <==> d in ScoredBy(db, user) {
        ScoredByExact(db, user, d);
        ScoredByExact(db', user, d);
      }
      assert ScoredBy(db', user) == ScoredBy(db, user);
    }
  }

  /** What the SELECT answers: every document that lies in the sources, from dateFrom to dateTo inclusive, and that no
      role of this user has scored, once ... */
  lemma SelectAnswers(db: Snapshot, user: int, sel: Selection, d: int)
    requires Lays(db.docs, db.physical)
    ensures NoDuplicates(Select(db, user, sel))
    ensures d in Select(db, user, sel) <==>
              && d in db.docs && db.docs[d].source in sel.sources
              && (sel.range.dateFrom.Some? ==> sel.range.dateFrom.value <= db.docs[d].published)
              && (sel.range.dateTo.Some? ==> db.docs[d].published <= sel.range.dateTo.value)
              && forall role :: Score(user, role, d) !in db.scores
  {
    AnswerIsCorrect(db.docs, ScoredBy(db, user), sel, db.physical);
    ScoredByExact(db, user, d);
  }

  /** ... the newest first if descending, else the oldest. */
  lemma SelectSorts(db: Snapshot, user: int, sel: Selection, i: nat, j: nat)
    requires Lays(db.docs, db.physical) && i < j < |Select(db, user, sel)|
    ensures var rows := Select(db, user, sel);
            && rows[i] in db.docs && rows[j] in db.docs
            && if sel.descending then db.docs[rows[i]].published >= db.docs[rows[j]].published
               else db.docs[rows[i]].published <= db.docs[rows[j]].published
  {
    AnswerIsCorrect(db.docs, ScoredBy(db, user), sel, db.physical);
  }

  class Postgres {
    var docs: map<int, Document>
    var physical: seq<int>          // the order the documents lie in on disk
    var scores: set<Score>          // unique (user_id, role_id, document_id)
    var people: set<int>            // users.user
    var roles: set<int>             // users.role

    function Now(): Snapshot
      reads this
    {
      Snapshot(docs, physical, scores)
    }

    /** The foreign keys of score.score. */
    predicate Refers(score: Score)
      reads this
    {
      score.user in people && score.role in roles && score.doc in docs
    }

    /** score.save, under the unique constraint and the foreign keys. */
    method Save(user: int, role: int, doc: int) returns (saved: Saved)
      modifies this`scores
      ensures saved == if Score(user, role, doc) in old(scores) then Duplicate
                       else if user in people && role in roles && doc in docs then Stored
                       else Dangling
      ensures scores == old(scores) + if saved.Stored? then {Score(user, role, doc)} else {}
    {
      var score := Score(user, role, doc);
      if score in scores { return Duplicate; }
      if !Refers(score) { return Dangling; }
      scores := scores + {score};
      return Stored;
    }
  }
}
