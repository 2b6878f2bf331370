/**
 * The roster import of the file usecase. Its input is the grid of cells of the sheet
 * "Sheet1": the first row names one student per column after the first, every other
 * row names a teacher in its first cell and, in the columns below the students, the
 * exams that student still owes that teacher. ParseFile reads the grid into students,
 * teachers and debts.
 */
module RosterParser {
  import opened Wrappers
  import opened Errors
  import opened GoStrings
  import Types

  /** The student a header cell names: "Last First Middle Group", when it has four pieces or more. */
  function StudentOf(header: string): Option<Types.Student>
  {
    var p := Split(header, ' ');
    if |p| < 4 then None
    else Some(Types.Student("", p[1], p[0], p[2], "", Some(Types.Group(0, p[3])), ""))
  }

  /** The teacher a trimmed first cell names: "Last First Middle Email". */
  function TeacherOf(name: string): Option<Types.Teacher>
  {
    var p := Split(name, ' ');
    if |p| < 4 then None
    else Some(Types.Teacher("", p[1], p[0], p[2], p[3], ""))
  }

  /**
   * A header written as four or more space-separated words, none holding a space, names the
   * student with the first three words as last, first and middle name and the fourth as group.
   */
  lemma HeaderRoundTrip(words: seq<string>)
    requires |words| >= 4 && forall k :: 0 <= k < |words| ==> ' ' !in words[k]
    ensures StudentOf(Join(words, ' ')) ==
      Some(Types.Student("", words[1], words[0], words[2], "", Some(Types.Group(0, words[3])), ""))
  {
    SplitJoin(words, ' ');
  }

  /** A header with fewer than three spaces names no student. */
  lemma ShortHeaderSkipped(header: string)
    requires Count(header, ' ') < 3
    ensures StudentOf(header).None?
  {
    SplitPieces(header, ' ');
  }

  /** A teacher cell written as "Last First Middle Email ..." names that teacher. */
  lemma TeacherRoundTrip(words: seq<string>)
    requires |words| >= 4 && forall k :: 0 <= k < |words| ==> ' ' !in words[k]
    ensures TeacherOf(Join(words, ' ')) == Some(Types.Teacher("", words[1], words[0], words[2], words[3], ""))
  {
    SplitJoin(words, ' ');
  }

  /** The students of the header cells, in column order, skipping the cells that name none. */
  function KeptStudents(hs: seq<string>): seq<Types.Student>
    decreases |hs|
  {
    if hs == [] then []
    else
      var kept := KeptStudents(hs[..|hs| - 1]);
      match StudentOf(hs[|hs| - 1])
      case Some(s) => kept + [s]
      case None => kept
  }

  /** The column index of every header cell that names a student, with that student. */
  function StudentKeys(hs: seq<string>): map<int, Types.Student>
    decreases |hs|
  {
    if hs == [] then map[]
    else
      var m := StudentKeys(hs[..|hs| - 1]);
      match StudentOf(hs[|hs| - 1])
      case Some(s) => m[|hs| - 1 := s]
      case None => m
  }

  /** The teacher key of a data row: its trimmed first cell, when that names a teacher. */
  function TeacherKey(row: seq<string>): (r: Option<string>)
    ensures r.Some? ==> TeacherOf(r.value).Some?
  {
    if row == [] then None
    else
      var name := TrimSpace(row[0]);
      if name == [] || TeacherOf(name).None? then None else Some(name)
  }

  /** The teacher keys of the data rows, in row order, repeats included. */
  function RowKeys(rows: seq<seq<string>>): (ks: seq<string>)
    ensures forall k :: k in ks ==> TeacherOf(k).Some?
    decreases |rows|
  {
    if rows == [] then []
    else
      var ks := RowKeys(rows[..|rows| - 1]);
      match TeacherKey(rows[|rows| - 1])
      case Some(k) => ks + [k]
      case None => ks
  }

  /** The first occurrence of every key, in order. */
  function Dedup(ks: seq<string>): seq<string>
    decreases |ks|
  {
    if ks == [] then []
    else
      var d := Dedup(ks[..|ks| - 1]);
      if ks[|ks| - 1] in d then d else d + [ks[|ks| - 1]]
  }

  /** The teachers of a list of keys, skipping keys that name none. */
  function TeacherList(ks: seq<string>): seq<Types.Teacher>
    decreases |ks|
  {
    if ks == [] then []
    else
      var ts := TeacherList(ks[..|ks| - 1]);
      match TeacherOf(ks[|ks| - 1])
      case Some(t) => ts + [t]
      case None => ts
  }

  /** The debt the cell in column j of a row records, if any: the cutoff is the number of kept students. */
  function CellDebt(hs: seq<string>, j: int, cell: string, t: Types.Teacher): seq<Types.Debt>
  {
    var exam := TrimSpace(cell);
    if 0 <= j < |hs| && j < |KeptStudents(hs)| && exam != [] && StudentOf(hs[j]).Some? then
      [Types.Debt(0, None, Some(Types.Exam(0, exam)), Some(StudentOf(hs[j]).value), Some(t), [])]
    else []
  }

  /** The debts of the cells of one row (its first cell dropped), in column order. */
  function RowDebts(hs: seq<string>, cells: seq<string>, t: Types.Teacher): seq<Types.Debt>
    decreases |cells|
  {
    if cells == [] then []
    else RowDebts(hs, cells[..|cells| - 1], t) + CellDebt(hs, |cells| - 1, cells[|cells| - 1], t)
  }

  /** The debts of all data rows, in row order. */
  function AllDebts(hs: seq<string>, rows: seq<seq<string>>): seq<Types.Debt>
    decreases |rows|
  {
    if rows == [] then []
    else
      var row := rows[|rows| - 1];
      AllDebts(hs, rows[..|rows| - 1]) +
        match TeacherKey(row)
        case Some(k) => RowDebts(hs, row[1..], TeacherOf(k).value)
        case None => []
  }

  /**
   * ParseFile on the rows of the sheet. Fewer than two rows is an error; otherwise the
   * students are those of the header, the teachers one per distinct teacher key in order
   * of first appearance, and the debts those of every cell of a teacher row that lies in
   * a student's column, before the cutoff at the number of kept students, and holds a
   * non-blank exam name.
   */
  method ParseFile(rows: seq<seq<string>>)
    returns (students: seq<Types.Student>, teachers: seq<Types.Teacher>, debts: seq<Types.Debt>, err: Option<Error>)
    requires |rows| < 2 || |rows[0]| >= 1
    ensures err.Some? <==> |rows| < 2
    ensures err.Some? ==> err.value == Plain(NotEnoughRows) && students == [] && teachers == [] && debts == []
    ensures err.None? ==> students == KeptStudents(rows[0][1..])
    ensures err.None? ==> teachers == TeacherList(Dedup(RowKeys(rows[1..])))
    ensures err.None? ==> debts == AllDebts(rows[0][1..], rows[1..])
  {
    if |rows| < 2 {
      return [], [], [], Some(Plain(NotEnoughRows));
    }
    err := None;
    var hs := rows[0][1..];
    var studentMap;
    students, studentMap := ParseStudents(hs);

    var rs := rows[1..];
    teachers := [];
    var teacherMap: map<string, Types.Teacher> := map[];
    debts := [];
    for r := 0 to |rs|
      invariant teachers == TeacherList(Dedup(RowKeys(rs[..r])))
      invariant forall k :: k in teacherMap <==> k in Dedup(RowKeys(rs[..r]))
      invariant forall k :: k in teacherMap ==> TeacherOf(k) == Some(teacherMap[k])
      invariant debts == AllDebts(hs, rs[..r])
    {
      var row := rs[r];
      PrefixStep(hs, rs, r);
      if |row| == 0 {
        assert TeacherKey(row).None?;
        assert RowKeys(rs[..r + 1]) == RowKeys(rs[..r]);
        continue;
      }
      var teacherName := TrimSpace(row[0]);
      if teacherName == [] {
        assert TeacherKey(row).None?;
        assert RowKeys(rs[..r + 1]) == RowKeys(rs[..r]);
        continue;
      }
      var teacherParts := Split(teacherName, ' ');
      if |teacherParts| < 4 {
        assert TeacherKey(row).None?;
        assert RowKeys(rs[..r + 1]) == RowKeys(rs[..r]);
        continue;
      }
      assert TeacherKey(row) == Some(teacherName);
      var keys := RowKeys(rs[..r]);
      assert RowKeys(rs[..r + 1]) == keys + [teacherName];
      DedupStep(keys, teacherName);
      var teacher: Types.Teacher;
      if teacherName in teacherMap {
        teacher := teacherMap[teacherName];
      } else {
        teacher := Types.Teacher("", teacherParts[1], teacherParts[0], teacherParts[2], teacherParts[3], "");
        var d := Dedup(RowKeys(rs[..r]));
        assert (d + [teacherName])[..|d|] == d;
        teachers := teachers + [teacher];
        teacherMap := teacherMap[teacherName := teacher];
      }
      var rowDebts := ParseCells(hs, row[1..], teacher, studentMap);
      debts := debts + rowDebts;
    }
    assert rs[..|rs|] == rs;
  }

  /** One more data row extends the keys and the debts by that row's own. */
  lemma PrefixStep(hs: seq<string>, rs: seq<seq<string>>, r: int)
    requires 0 <= r < |rs|
    ensures RowKeys(rs[..r + 1]) ==
      RowKeys(rs[..r]) + match TeacherKey(rs[r]) case Some(k) => [k] case None => []
    ensures AllDebts(hs, rs[..r + 1]) ==
      AllDebts(hs, rs[..r]) + match TeacherKey(rs[r]) case Some(k) => RowDebts(hs, rs[r][1..], TeacherOf(k).value) case None => []
  {
    assert rs[..r + 1][..r] == rs[..r];
    assert rs[..r + 1][r] == rs[r];
  }

  /** One more key extends Dedup by that key when it is new, and leaves it alone otherwise. */
  lemma DedupStep(ks: seq<string>, k: string)
    ensures Dedup(ks + [k]) == if k in Dedup(ks) then Dedup(ks) else Dedup(ks) + [k]
  {
    assert (ks + [k])[..|ks|] == ks;
  }

  /** The first loop of ParseFile: the students of the header cells and their column map. */
  method ParseStudents(hs: seq<string>) returns (students: seq<Types.Student>, studentMap: map<int, Types.Student>)
    ensures students == KeptStudents(hs)
    ensures studentMap == StudentKeys(hs)
  {
    students := [];
    studentMap := map[];
    for i := 0 to |hs|
      invariant students == KeptStudents(hs[..i])
      invariant studentMap == StudentKeys(hs[..i])
    {
      assert hs[..i + 1][..i] == hs[..i];
      var parts := Split(hs[i], ' ');
      if |parts| < 4 {
        continue;
      }
      var student := Types.Student("", parts[1], parts[0], parts[2], "", Some(Types.Group(0, parts[3])), "");
      students := students + [student];
      studentMap := studentMap[i := student];
    }
    assert hs[..|hs|] == hs;
  }

  /**
   * The inner loop of ParseFile over the cells of one row: it stops at the column equal to
   * the number of map entries and skips blank cells and columns without a student.
   */
  method ParseCells(hs: seq<string>, cells: seq<string>, teacher: Types.Teacher, studentMap: map<int, Types.Student>)
    returns (debts: seq<Types.Debt>)
    requires studentMap == StudentKeys(hs)
    ensures debts == RowDebts(hs, cells, teacher)
  {
    StudentKeysSpec(hs);
    debts := [];
    for c := 0 to |cells|
      invariant debts == RowDebts(hs, cells[..c], teacher)
    {
      if c >= |studentMap| {
        RowDebtsCutoff(hs, cells, teacher, c);
        break;
      }
      assert cells[..c + 1][..c] == cells[..c];
      var examName := TrimSpace(cells[c]);
      if examName == [] {
        continue;
      }
      if c !in studentMap {
        continue;
      }
      var student := studentMap[c];
      debts := debts + [Types.Debt(0, None, Some(Types.Exam(0, examName)), Some(student), Some(teacher), [])];
    }
    assert cells[..|cells|] == cells;
  }

  /** The student map holds exactly the columns whose header names a student, and as many entries as students. */
  lemma {:induction false} StudentKeysSpec(hs: seq<string>)
    ensures forall i :: i in StudentKeys(hs) <==> 0 <= i < |hs| && StudentOf(hs[i]).Some?
    ensures forall i :: i in StudentKeys(hs) ==> StudentKeys(hs)[i] == StudentOf(hs[i]).value
    ensures |StudentKeys(hs)| == |KeptStudents(hs)|
    decreases |hs|
  {
    if hs != [] {
      var init := hs[..|hs| - 1];
      StudentKeysSpec(init);
      forall i | 0 <= i < |init| ensures init[i] == hs[i] { }
    }
  }

  /** There are never more kept students than header cells. */
  lemma {:induction false} KeptBound(hs: seq<string>)
    ensures |KeptStudents(hs)| <= |hs|
    decreases |hs|
  {
    if hs != [] {
      KeptBound(hs[..|hs| - 1]);
    }
  }

  /** Every student a header cell names is one of the kept students. */
  lemma {:induction false} KeptContains(hs: seq<string>, j: int)
    requires 0 <= j < |hs| && StudentOf(hs[j]).Some?
    ensures StudentOf(hs[j]).value in KeptStudents(hs)
    decreases |hs|
  {
    if j < |hs| - 1 {
      var init := hs[..|hs| - 1];
      assert init[j] == hs[j];
      KeptContains(init, j);
    }
  }

  /** No cell at or beyond the cutoff column records a debt. */
  lemma {:induction false} RowDebtsCutoff(hs: seq<string>, cells: seq<string>, t: Types.Teacher, c: int)
    requires |KeptStudents(hs)| <= c <= |cells|
    ensures RowDebts(hs, cells, t) == RowDebts(hs, cells[..c], t)
    decreases |cells|
  {
    if c < |cells| {
      var init := cells[..|cells| - 1];
      RowDebtsCutoff(hs, init, t, c);
      assert init[..c] == cells[..c];
    } else {
      assert cells[..c] == cells;
    }
  }

  /** A key is kept by Dedup exactly when it occurs, and Dedup keeps it once. */
  lemma {:induction false} DedupSpec(ks: seq<string>)
    ensures forall k :: k in Dedup(ks) <==> k in ks
    ensures forall i, j :: 0 <= i < j < |Dedup(ks)| ==> Dedup(ks)[i] != Dedup(ks)[j]
    decreases |ks|
  {
    if ks != [] {
      var init := ks[..|ks| - 1];
      DedupSpec(init);
      assert ks == init + [ks[|ks| - 1]];
    }
  }

  /** The teacher a valid key names is among the teachers of any key list holding it. */
  lemma {:induction false} TeacherListContains(ks: seq<string>, k: string)
    requires k in ks && TeacherOf(k).Some?
    ensures TeacherOf(k).value in TeacherList(ks)
    decreases |ks|
  {
    var init := ks[..|ks| - 1];
    if ks[|ks| - 1] != k {
      assert ks == init + [ks[|ks| - 1]];
      TeacherListContains(init, k);
    }
  }

  /** Every debt of a row names a kept student, the row's teacher and a trimmed, non-blank exam. */
  lemma {:induction false} RowDebtsWellFormed(hs: seq<string>, cells: seq<string>, t: Types.Teacher)
    ensures forall d :: d in RowDebts(hs, cells, t) ==>
      d.student.Some? && d.student.value in KeptStudents(hs) && d.teacher == Some(t) &&
      d.exam.Some? && d.exam.value.name != [] && TrimSpace(d.exam.value.name) == d.exam.value.name
    decreases |cells|
  {
    if cells != [] {
      RowDebtsWellFormed(hs, cells[..|cells| - 1], t);
      var j := |cells| - 1;
      var cd := CellDebt(hs, j, cells[j], t);
      if cd != [] {
        KeptContains(hs, j);
        TrimSpaceIdempotent(cells[j]);
      }
    }
  }

  /**
   * Every parsed debt refers to a parsed student and a parsed teacher, and its exam name
   * is trimmed and non-blank.
   */
  lemma {:induction false} DebtsReferToParsed(hs: seq<string>, rows: seq<seq<string>>)
    ensures forall d :: d in AllDebts(hs, rows) ==>
      d.student.Some? && d.student.value in KeptStudents(hs) &&
      d.teacher.Some? && d.teacher.value in TeacherList(Dedup(RowKeys(rows))) &&
      d.exam.Some? && d.exam.value.name != [] && TrimSpace(d.exam.value.name) == d.exam.value.name
    decreases |rows|
  {
    if rows != [] {
      var init := rows[..|rows| - 1];
      var row := rows[|rows| - 1];
      DebtsReferToParsed(hs, init);
      DedupSpec(RowKeys(init));
      DedupSpec(RowKeys(rows));
      forall k | k in RowKeys(init) ensures k in RowKeys(rows) { }
      forall d | d in AllDebts(hs, init)
        ensures d.teacher.value in TeacherList(Dedup(RowKeys(rows)))
      {
        TeacherListOrigin(Dedup(RowKeys(init)), d.teacher.value);
        var k :| k in Dedup(RowKeys(init)) && TeacherOf(k) == d.teacher;
        TeacherListContains(Dedup(RowKeys(rows)), k);
      }
      match TeacherKey(row)
      case Some(k) =>
        RowDebtsWellFormed(hs, row[1..], TeacherOf(k).value);
        assert k in RowKeys(rows);
        TeacherListContains(Dedup(RowKeys(rows)), k);
      case None =>
    }
  }

  /** Every teacher of a key list is the teacher of one of its keys. */
  lemma {:induction false} TeacherListOrigin(ks: seq<string>, t: Types.Teacher)
    requires t in TeacherList(ks)
    ensures exists k :: k in ks && TeacherOf(k) == Some(t)
    decreases |ks|
  {
    var init := ks[..|ks| - 1];
    var last := ks[|ks| - 1];
    if t in TeacherList(init) {
      TeacherListOrigin(init, t);
      var k :| k in init && TeacherOf(k) == Some(t);
      assert k in ks;
    } else {
      assert last in ks;
    }
  }

  /**
   * The cutoff counts kept students, not columns: when the first header cell names no student
   * and the second does, that student is kept but no cell of any row records a debt for it.
   */
  lemma {:induction false} SkippedHeaderHidesLaterStudent(hs: seq<string>, cells: seq<string>, t: Types.Teacher)
    requires |hs| == 2 && StudentOf(hs[0]).None? && StudentOf(hs[1]).Some?
    ensures |KeptStudents(hs)| == 1
    ensures RowDebts(hs, cells, t) == []
  {
    assert hs[..1][..0] == [];
    assert KeptStudents(hs[..1]) == [];
    if |cells| >= 1 {
      RowDebtsCutoff(hs, cells, t, 1);
      assert cells[..1][..0] == [];
    }
  }
}
