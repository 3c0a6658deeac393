/** The note response, note creation and the caller's own note list. */
module Notes {
  import opened Wrappers
  import opened Db

  /** `NoteResponse`: the stored note plus the caller-specific fields. */
  datatype NoteResponse = NoteResponse(
    id: int, userId: int, createdAt: Instant, title: string, content: string, public: bool,
    saves: nat, userBookmark: bool, userVote: int)

  /** The save rows of one note. */
  function SavesOf(saves: set<(int, int)>, noteId: int): (r: set<(int, int)>)
    ensures forall s | s in r :: s in saves && s.1 == noteId
    ensures forall s | s in saves && s.1 == noteId :: s in r
  {
    set s | s in saves && s.1 == noteId
  }

  /** `to_response`: the caller's vote is 1 for an upvote row, -1 for a downvote
      row and 0 without one; the bookmark flag says whether the caller saved
      the note; `saves` counts every save of the note. */
  function ToResponse(n: Note, upvotes: map<(int, int), bool>, saves: set<(int, int)>, caller: int): (r: NoteResponse)
    ensures r.id == n.id && r.userId == n.userId && r.createdAt == n.createdAt
    ensures r.title == n.title && r.content == n.content && r.public == n.public
    ensures r.userVote in {-1, 0, 1}
    ensures r.userVote == 1 <==> (caller, n.id) in upvotes && upvotes[(caller, n.id)]
    ensures r.userVote == -1 <==> (caller, n.id) in upvotes && !upvotes[(caller, n.id)]
    ensures r.userBookmark <==> (caller, n.id) in saves
    ensures r.saves == |SavesOf(saves, n.id)|
  {
    var vote := if (caller, n.id) !in upvotes then 0 else if upvotes[(caller, n.id)] then 1 else -1;
    NoteResponse(n.id, n.userId, n.createdAt, n.title, n.content, n.public,
                 |SavesOf(saves, n.id)|, (caller, n.id) in saves, vote)
  }

  /** Another user's vote or bookmark does not show in the caller's response. */
  lemma OthersDoNotShow(n: Note, upvotes: map<(int, int), bool>, saves: set<(int, int)>, caller: int, other: int, up: bool)
    requires other != caller
    ensures ToResponse(n, upvotes[(other, n.id) := up], saves + {(other, n.id)}, caller).userVote
         == ToResponse(n, upvotes, saves, caller).userVote
    ensures ToResponse(n, upvotes[(other, n.id) := up], saves + {(other, n.id)}, caller).userBookmark
         == ToResponse(n, upvotes, saves, caller).userBookmark
  {
  }

  /** `response_from_array`: one response per note, in the notes' order. */
  method ResponseFromArray(notes: seq<Note>, upvotes: map<(int, int), bool>, saves: set<(int, int)>, caller: int)
    returns (responses: seq<NoteResponse>)
    ensures |responses| == |notes|
    ensures forall i | 0 <= i < |notes| :: responses[i] == ToResponse(notes[i], upvotes, saves, caller)
  {
    responses := [];
    for i := 0 to |notes|
      invariant |responses| == i
      invariant forall j | 0 <= j < i :: responses[j] == ToResponse(notes[j], upvotes, saves, caller)
    {
      responses := responses + [ToResponse(notes[i], upvotes, saves, caller)];
    }
  }

  /** `NoteCreateRequest`. */
  datatype NoteCreateRequest = NoteCreateRequest(title: string, content: string, public: Option<bool>)

  /** `create_note`: a new row owned by the caller, stamped `now`, private
      unless the request says otherwise. */
  method CreateNote(db: Database, caller: int, body: NoteCreateRequest, now: Instant) returns (success: bool)
    requires db.Valid()
    modifies db`notes, db`nextNoteId
    ensures db.Valid()
    ensures success
    ensures old(db.nextNoteId) !in old(db.notes)
    ensures db.notes == old(db.notes)[old(db.nextNoteId) :=
      Note(old(db.nextNoteId), caller, now, body.title, body.content, body.public.GetOr(false))]
  {
    var id := db.nextNoteId;
    db.notes := db.notes[id := Note(id, caller, now, body.title, body.content, body.public.GetOr(false))];
    db.nextNoteId := id + 1;
    success := true;
  }

  /** Newest first: `created_at` never increases along the sequence. */
  predicate NewestFirst(xs: seq<Note>) {
    forall i, j | 0 <= i < j < |xs| :: xs[i].createdAt >= xs[j].createdAt
  }

  /** No note appears twice. */
  predicate DistinctIds(xs: seq<Note>) {
    forall i, j | 0 <= i < j < |xs| :: xs[i].id != xs[j].id
  }

  /** Places `n` in front of the first note not newer than it. */
  function InsertNewestFirst(xs: seq<Note>, n: Note): (r: seq<Note>)
    ensures |r| == |xs| + 1
    ensures forall x :: x in r <==> x in xs || x == n
  {
    if xs == [] || xs[0].createdAt <= n.createdAt then [n] + xs
    else [xs[0]] + InsertNewestFirst(xs[1..], n)
  }

  /** Inserting into a newest-first list keeps it newest first. */
  lemma {:induction false} InsertKeepsOrder(xs: seq<Note>, n: Note)
    requires NewestFirst(xs)
    ensures NewestFirst(InsertNewestFirst(xs, n))
  {
    if xs != [] && xs[0].createdAt > n.createdAt {
      var tail := xs[1..];
      assert NewestFirst(tail) by {
        forall i, j | 0 <= i < j < |tail|
          ensures tail[i].createdAt >= tail[j].createdAt
        {
          assert tail[i] == xs[i + 1] && tail[j] == xs[j + 1];
        }
      }
      InsertKeepsOrder(tail, n);
      var rest := InsertNewestFirst(tail, n);
      var r := InsertNewestFirst(xs, n);
      assert r == [xs[0]] + rest;
      forall i, j | 0 <= i < j < |r|
        ensures r[i].createdAt >= r[j].createdAt
      {
        if i == 0 {
          assert r[j] == rest[j - 1];
          assert rest[j - 1] in rest;
          if r[j] != n {
            var m :| 0 <= m < |tail| && tail[m] == r[j];
            assert xs[m + 1] == r[j];
          }
        } else {
          assert r[i] == rest[i - 1] && r[j] == rest[j - 1];
        }
      }
    }
  }

  /** Inserting a note whose id is new keeps the ids distinct. */
  lemma {:induction false} InsertKeepsDistinct(xs: seq<Note>, n: Note)
    requires DistinctIds(xs)
    requires forall i | 0 <= i < |xs| :: xs[i].id != n.id
    ensures DistinctIds(InsertNewestFirst(xs, n))
  {
    if xs != [] && xs[0].createdAt > n.createdAt {
      InsertKeepsDistinct(xs[1..], n);
      var r := InsertNewestFirst(xs, n);
      forall j | 0 < j < |r|
        ensures r[0].id != r[j].id
      {
        assert r[j] in xs[1..] || r[j] == n;
      }
    }
  }

  /** The `filter` clauses of the two note-list queries: every note of a user,
      or only that user's public notes. */
  datatype Selection = AllOf(user: int) | PublicOf(user: int)

  predicate Selects(sel: Selection, n: Note) {
    match sel
    case AllOf(user) => n.userId == user
    case PublicOf(user) => n.userId == user && n.public
  }

  /** The rows the selection picks, newest first: the query
      `filter(..).order_by_desc(created_at).all()`, as a scan over the serial
      ids below `nextId`. Rows created at the same instant come in no
      particular order. */
  method SelectNewestFirst(notes: map<int, Note>, nextId: int, sel: Selection) returns (r: seq<Note>)
    requires KeyedNotes(notes)
    requires forall k | k in notes :: 0 < k < nextId
    ensures NewestFirst(r) && DistinctIds(r)
    ensures forall n :: n in r <==> n.id in notes && notes[n.id] == n && Selects(sel, n)
  {
    r := [];
    var id := 1;
    while id < nextId
      invariant NewestFirst(r) && DistinctIds(r)
      invariant forall n :: n in r <==> n.id in notes && n.id < id && notes[n.id] == n && Selects(sel, n)
      decreases nextId - id
    {
      if id in notes && Selects(sel, notes[id]) {
        forall i | 0 <= i < |r|
          ensures r[i].id != notes[id].id
        {
          assert r[i] in r;
        }
        InsertKeepsDistinct(r, notes[id]);
        InsertKeepsOrder(r, notes[id]);
        r := InsertNewestFirst(r, notes[id]);
      }
      id := id + 1;
    }
  }

  /** `get_notes`: the caller's notes, newest first, each as the caller sees it. */
  method GetNotes(db: Database, caller: int) returns (responses: seq<NoteResponse>)
    requires db.Valid()
    ensures forall i | 0 <= i < |responses| ::
      responses[i].id in db.notes && responses[i].userId == caller
      && responses[i] == ToResponse(db.notes[responses[i].id], db.upvotes, db.saves, caller)
    ensures forall k | k in db.notes && db.notes[k].userId == caller ::
      exists i | 0 <= i < |responses| :: responses[i].id == k
    ensures forall i, j | 0 <= i < j < |responses| ::
      responses[i].createdAt >= responses[j].createdAt && responses[i].id != responses[j].id
  {
    var own := SelectNewestFirst(db.notes, db.nextNoteId, AllOf(caller));
    responses := ResponseFromArray(own, db.upvotes, db.saves, caller);
    forall k | k in db.notes && db.notes[k].userId == caller
      ensures exists i | 0 <= i < |responses| :: responses[i].id == k
    {
      var i :| 0 <= i < |own| && own[i] == db.notes[k];
      assert responses[i].id == k;
    }
    forall i | 0 <= i < |responses|
      ensures responses[i].id in db.notes && responses[i].userId == caller
      ensures responses[i] == ToResponse(db.notes[responses[i].id], db.upvotes, db.saves, caller)
    {
      assert own[i] in own;
    }
  }
}
