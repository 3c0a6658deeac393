/** The server's tables, as the handlers read and write them, and the errors
    the handlers answer with. */
module Db {
  import opened Wrappers

  newtype byte = x: int | 0 <= x < 256

  /** A time stamp, in whatever unit the database orders `created_at` by. */
  type Instant = int

  datatype Note = Note(id: int, userId: int, createdAt: Instant, title: string, content: string, public: bool)

  datatype File = File(id: int, userId: int, createdAt: Instant, filename: string, ocr: Option<string>, data: seq<byte>)

  datatype User = User(id: int, username: string, email: string, password: string, createdAt: Instant,
                       profilePicture: Option<seq<byte>>)

  datatype QuestionRow = QuestionRow(id: int, quizId: int, title: string, answers: seq<string>, correct: int)

  /** An `AxumError`: its HTTP status and its message. `Internal` is the status
      `AxumError::new` gives. */
  datatype ApiError =
    | NotFound(message: string)
    | Unauthorized(message: string)
    | Forbidden(message: string)
    | Conflict(message: string)
    | BadRequest(message: string)
    | PayloadTooLarge(message: string)
    | Internal(message: string)

  /** Every row of a table is stored under its own primary key. */
  ghost predicate KeyedNotes(notes: map<int, Note>) {
    forall k | k in notes :: notes[k].id == k
  }

  ghost predicate KeyedFiles(files: map<int, File>) {
    forall k | k in files :: files[k].id == k
  }

  ghost predicate KeyedUsers(users: map<int, User>) {
    forall k | k in users :: users[k].id == k
  }

  /** Every question row points at a quiz id and carries an id already handed out. */
  ghost predicate RowsBelow(rows: seq<QuestionRow>, nextQuizId: int, nextQuestionId: int) {
    forall i | 0 <= i < |rows| :: rows[i].quizId < nextQuizId && rows[i].id < nextQuestionId
  }

  class Database {
    var notes: map<int, Note>
    var files: map<int, File>
    var users: map<int, User>
    /** The `quizes` table, by its unique `note_id`: note id to quiz id. */
    var quizOf: map<int, int>
    /** The `questions` table in insertion order. */
    var questions: seq<QuestionRow>
    /** The `upvotes` table by its (user, note) key: whether the row is an upvote. */
    var upvotes: map<(int, int), bool>
    /** The `saves` table: (user, note) pairs. */
    var saves: set<(int, int)>
    /** The next values the serial primary keys hand out. */
    var nextNoteId: int
    var nextQuizId: int
    var nextQuestionId: int

    /** Rows sit under their keys, and every serial key in use is below the next one. */
    ghost predicate Valid()
      reads this
    {
      && KeyedNotes(notes) && KeyedFiles(files) && KeyedUsers(users)
      && 0 < nextNoteId && (forall k | k in notes :: 0 < k < nextNoteId)
      && (forall n | n in quizOf :: quizOf[n] < nextQuizId)
      && RowsBelow(questions, nextQuizId, nextQuestionId)
    }

    /** A database holding the given users and files and nothing else. */
    constructor (users: map<int, User>, files: map<int, File>)
      requires KeyedUsers(users) && KeyedFiles(files)
      ensures Valid()
      ensures this.users == users && this.files == files
      ensures notes == map[] && quizOf == map[] && questions == [] && upvotes == map[] && saves == {}
    {
      notes := map[];
      this.files := files;
      this.users := users;
      quizOf := map[];
      questions := [];
      upvotes := map[];
      saves := {};
      nextNoteId := 1;
      nextQuizId := 1;
      nextQuestionId := 1;
    }
  }
}
