/** Reading and generating the quiz of a note, as `notes/quiz.rs` is written (the file is not declared as a module, so the server does not route it). */
module NotesQuiz {
  import opened Wrappers
  import opened Db
  import Seqs

  /** A question as the API carries it. */
  datatype Question = Question(title: string, answers: seq<string>, correct: int)

  datatype QuizResponse = QuizResponse(id: int, questions: seq<Question>)

  /** What the AI chat call produced: no message content, content that does not
      parse as the expected JSON (with the parser's explanation), or the parsed questions. */
  datatype AiOutcome = NoContent | Unparsable(detail: string) | Parsed(questions: seq<Question>)

  const QuizNotFound := "Quiz not found for this note"

  function AsQuestion(row: QuestionRow): (q: Question)
    ensures q.title == row.title && q.answers == row.answers && q.correct == row.correct
  {
    Question(row.title, row.answers, row.correct)
  }

  /** The questions of one quiz, in table order. */
  function Related(rows: seq<QuestionRow>, quizId: int): (r: seq<Question>)
    ensures |r| <= |rows|
    ensures forall i | 0 <= i < |r| :: exists j | 0 <= j < |rows| :: rows[j].quizId == quizId && r[i] == AsQuestion(rows[j])
  {
    if rows == [] then []
    else
      var last := rows[|rows| - 1];
      var before := Related(rows[..|rows| - 1], quizId);
      before + (if last.quizId == quizId then [AsQuestion(last)] else [])
  }

  /** No question of the quiz is missed: every row of the quiz is among its questions. */
  lemma {:induction false} RelatedComplete(rows: seq<QuestionRow>, quizId: int)
    ensures forall j | 0 <= j < |rows| && rows[j].quizId == quizId :: AsQuestion(rows[j]) in Related(rows, quizId)
  {
    if rows != [] {
      var init := rows[..|rows| - 1];
      RelatedComplete(init, quizId);
      assert forall j | 0 <= j < |init| :: init[j] == rows[j];
    }
  }

  /** An independent reading of the same query: the rows whose `quiz_id` is the
      quiz's, filtered in table order and then converted, one question per row. */
  lemma {:induction false} RelatedIsFiltered(rows: seq<QuestionRow>, quizId: int, keep: QuestionRow -> bool)
    requires forall row :: keep(row) == (row.quizId == quizId)
    ensures Related(rows, quizId) == Seqs.Map(Seqs.Filter(rows, keep), AsQuestion)
  {
    if rows != [] {
      var init := rows[..|rows| - 1];
      var last := rows[|rows| - 1];
      assert rows == init + [last];
      RelatedIsFiltered(init, quizId, keep);
      Seqs.FilterAppend(init, [last], keep);
      assert Seqs.Filter([last], keep) == if keep(last) then [last] else [];
      Seqs.MapAppend(Seqs.Filter(init, keep), Seqs.Filter([last], keep), AsQuestion);
    }
  }

  /** A row of another quiz does not add to this quiz's questions. */
  lemma {:induction false} RelatedAppend(rows: seq<QuestionRow>, row: QuestionRow, quizId: int)
    ensures Related(rows + [row], quizId)
         == Related(rows, quizId) + (if row.quizId == quizId then [AsQuestion(row)] else [])
  {
    assert (rows + [row])[..|rows|] == rows;
  }

  /** A quiz id no row mentions has no questions. */
  lemma {:induction false} RelatedAbsent(rows: seq<QuestionRow>, quizId: int)
    requires forall i | 0 <= i < |rows| :: rows[i].quizId != quizId
    ensures Related(rows, quizId) == []
  {
    if rows != [] {
      RelatedAbsent(rows[..|rows| - 1], quizId);
    }
  }

  /** `get_quizes`: NotFound for a missing note; a note that is neither the
      caller's nor public answers exactly as a note without a quiz does; a
      permitted note's quiz comes back with all its questions. */
  function GetQuizes(notes: map<int, Note>, quizOf: map<int, int>, questions: seq<QuestionRow>, caller: int, id: int)
    : (r: Result<QuizResponse, ApiError>)
    ensures id !in notes ==> r == Err(NotFound("Note not found"))
    ensures id in notes && notes[id].userId != caller && !notes[id].public ==> r == Err(NotFound(QuizNotFound))
    ensures id in notes && (notes[id].userId == caller || notes[id].public) && id !in quizOf
      ==> r == Err(NotFound(QuizNotFound))
    ensures r.Ok? <==> id in notes && (notes[id].userId == caller || notes[id].public) && id in quizOf
    ensures r.Ok? ==> r.value.id == quizOf[id] && r.value.questions == Related(questions, quizOf[id])
  {
    if id !in notes then Err(NotFound("Note not found"))
    else if notes[id].userId != caller && !notes[id].public then Err(NotFound(QuizNotFound))
    else if id !in quizOf then Err(NotFound(QuizNotFound))
    else Ok(QuizResponse(quizOf[id], Related(questions, quizOf[id])))
  }

  /** A stranger reading a private note learns nothing: the answer is the one a
      note with no quiz gives. */
  lemma PrivateLooksMissing(notes: map<int, Note>, quizOf: map<int, int>, questions: seq<QuestionRow>, caller: int, id: int)
    requires id in notes && notes[id].userId != caller && !notes[id].public
    ensures GetQuizes(notes, quizOf, questions, caller, id)
         == GetQuizes(notes[id := notes[id].(userId := caller)], quizOf - {id}, questions, caller, id)
  {
  }

  /** The rows `create_quiz` inserts for the parsed questions, from the `first` serial id on. */
  function NewRows(qs: seq<Question>, quizId: int, first: int): (r: seq<QuestionRow>)
    ensures |r| == |qs|
  {
    if qs == [] then []
    else
      var k := |qs| - 1;
      NewRows(qs[..k], quizId, first) + [QuestionRow(first + k, quizId, qs[k].title, qs[k].answers, qs[k].correct)]
  }

  /** Row `k` is question `k` under the quiz id, with serial id `first + k`. */
  lemma {:induction false} NewRowsAt(qs: seq<Question>, quizId: int, first: int, k: int)
    requires 0 <= k < |qs|
    ensures NewRows(qs, quizId, first)[k] == QuestionRow(first + k, quizId, qs[k].title, qs[k].answers, qs[k].correct)
  {
    if k < |qs| - 1 {
      var m := |qs| - 1;
      NewRowsAt(qs[..m], quizId, first, k);
    }
  }

  /** Reading back a quiz whose rows were all appended after rows of other
      quizzes gives exactly the questions appended, in order. */
  lemma {:induction false} RelatedNewRows(base: seq<QuestionRow>, qs: seq<Question>, quizId: int, first: int)
    requires forall i | 0 <= i < |base| :: base[i].quizId != quizId
    ensures Related(base + NewRows(qs, quizId, first), quizId) == qs
  {
    if qs == [] {
      assert base + [] == base;
      RelatedAbsent(base, quizId);
    } else {
      var k := |qs| - 1;
      assert qs == qs[..k] + [qs[k]];
      var row := QuestionRow(first + k, quizId, qs[k].title, qs[k].answers, qs[k].correct);
      assert base + NewRows(qs, quizId, first) == (base + NewRows(qs[..k], quizId, first)) + [row];
      RelatedAppend(base + NewRows(qs[..k], quizId, first), row, quizId);
      RelatedNewRows(base, qs[..k], quizId, first);
    }
  }

  /** Appending a row with the next ids keeps every row below the (bumped) counters. */
  lemma RowsBelowAppend(rows: seq<QuestionRow>, row: QuestionRow, nextQuizId: int, nextQuestionId: int)
    requires RowsBelow(rows, nextQuizId, nextQuestionId)
    requires row.quizId < nextQuizId && row.id == nextQuestionId
    ensures RowsBelow(rows + [row], nextQuizId, nextQuestionId + 1)
  {
  }

  /** One more question adds its row at the end. */
  lemma NewRowsSnoc(qs: seq<Question>, i: int, quizId: int, first: int)
    requires 0 <= i < |qs|
    ensures NewRows(qs[..i + 1], quizId, first)
         == NewRows(qs[..i], quizId, first) + [QuestionRow(first + i, quizId, qs[i].title, qs[i].answers, qs[i].correct)]
  {
    assert qs[..i + 1][..i] == qs[..i];
  }

  /** `create_quiz`: NotFound, then Forbidden for anyone but the owner (public
      or not), then Conflict for a note that has a quiz, then the AI's failures
      — all before anything is written. On success one quiz row and, in order,
      one question row per parsed question are inserted under the new quiz id,
      and the response carries the parsed questions. */
  method CreateQuiz(db: Database, caller: int, id: int, ai: AiOutcome) returns (r: Result<QuizResponse, ApiError>)
    requires db.Valid()
    modifies db`quizOf, db`questions, db`nextQuizId, db`nextQuestionId
    ensures db.Valid()
    ensures r.Err? ==> db.quizOf == old(db.quizOf) && db.questions == old(db.questions)
    ensures id !in db.notes ==> r == Err(NotFound("Note not found"))
    ensures id in db.notes && db.notes[id].userId != caller ==>
      r == Err(Forbidden("You don't have permission to create quiz for this note"))
    ensures id in db.notes && db.notes[id].userId == caller && id in old(db.quizOf) ==>
      r == Err(Conflict("Quiz already exists for this note"))
    ensures id in db.notes && db.notes[id].userId == caller && id !in old(db.quizOf) && ai.NoContent? ==>
      r == Err(Internal("No content generated by AI"))
    ensures id in db.notes && db.notes[id].userId == caller && id !in old(db.quizOf) && ai.Unparsable? ==>
      r == Err(Internal("Failed to parse AI response: " + ai.detail))
    ensures id in db.notes && db.notes[id].userId == caller && id !in old(db.quizOf) && ai.Parsed? ==>
      && r == Ok(QuizResponse(old(db.nextQuizId), ai.questions))
      && db.quizOf == old(db.quizOf)[id := old(db.nextQuizId)]
      && db.questions == old(db.questions) + NewRows(ai.questions, old(db.nextQuizId), old(db.nextQuestionId))
      && GetQuizes(db.notes, db.quizOf, db.questions, caller, id) == r
  {
    if id !in db.notes {
      return Err(NotFound("Note not found"));
    }
    if db.notes[id].userId != caller {
      return Err(Forbidden("You don't have permission to create quiz for this note"));
    }
    if id in db.quizOf {
      return Err(Conflict("Quiz already exists for this note"));
    }
    match ai
    case NoContent =>
      return Err(Internal("No content generated by AI"));
    case Unparsable(detail) =>
      return Err(Internal("Failed to parse AI response: " + detail));
    case Parsed(qs) =>
      var quizId := db.nextQuizId;
      db.quizOf := db.quizOf[id := quizId];
      db.nextQuizId := quizId + 1;
      var responses := InsertQuestions(db, quizId, qs);
      r := Ok(QuizResponse(quizId, responses));
  }

  /** The loop of `create_quiz`: one row per question, in order, each pushed onto
      the response as it is inserted. */
  method InsertQuestions(db: Database, quizId: int, qs: seq<Question>) returns (responses: seq<Question>)
    requires db.Valid() && quizId < db.nextQuizId
    requires forall i | 0 <= i < |db.questions| :: db.questions[i].quizId != quizId
    modifies db`questions, db`nextQuestionId
    ensures db.Valid()
    ensures db.questions == old(db.questions) + NewRows(qs, quizId, old(db.nextQuestionId))
    ensures responses == qs
    ensures Related(db.questions, quizId) == qs
  {
    ghost var base := db.questions;
    ghost var first := db.nextQuestionId;
    responses := [];
    var i := 0;
    while i < |qs|
      invariant 0 <= i <= |qs|
      invariant RowsBelow(db.questions, db.nextQuizId, db.nextQuestionId)
      invariant db.questions == base + NewRows(qs[..i], quizId, first)
      invariant db.nextQuestionId == first + i
      invariant responses == qs[..i]
    {
      var q := qs[i];
      var row := QuestionRow(db.nextQuestionId, quizId, q.title, q.answers, q.correct);
      RowsBelowAppend(db.questions, row, db.nextQuizId, db.nextQuestionId);
      NewRowsSnoc(qs, i, quizId, first);
      ghost var prev := NewRows(qs[..i], quizId, first);
      assert base + prev + [row] == base + (prev + [row]);
      db.questions := db.questions + [row];
      db.nextQuestionId := db.nextQuestionId + 1;
      responses := responses + [Question(q.title, q.answers, q.correct)];
      assert qs[..i + 1] == qs[..i] + [q];
      i := i + 1;
    }
    assert qs[..|qs|] == qs;
    RelatedNewRows(base, qs, quizId, first);
  }

  /** A second request for the same note is refused and the first quiz stays. */
  method CreateTwiceScenario(owner: int, qs: seq<Question>) returns (first: Result<QuizResponse, ApiError>, second: Result<QuizResponse, ApiError>, read: Result<QuizResponse, ApiError>)
    ensures first.Ok? && first.value.questions == qs
    ensures second == Err(Conflict("Quiz already exists for this note"))
    ensures read == first
  {
    var db := new Database(map[], map[]);
    db.notes := map[5 := Note(5, owner, 0, "t", "c", false)];
    db.nextNoteId := 6;
    first := CreateQuiz(db, owner, 5, Parsed(qs));
    second := CreateQuiz(db, owner, 5, Parsed([]));
    read := GetQuizes(db.notes, db.quizOf, db.questions, owner, 5);
  }
}
