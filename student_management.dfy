/**
 * The client's student table (src/components/StudentManagement.tsx): a list
 * of student records with add, edit and delete, a form, and the id of the
 * record being edited. The new lists are computed purely (`map`, `filter`,
 * spread, `Math.max`) and then stored in the component's state.
 */
module StudentManagement {
  import opened Common

  datatype Student = Student(
    id: int, name: string, nis: string, className: string,
    academicScore: real, behaviorScore: real, achievementScore: real,
    leadershipScore: real, attendanceScore: real)

  /**
   * The form. A score field holds either nothing (the empty string) or a
   * number, which is what `toString` stores and `Number` reads back.
   */
  datatype FormData = FormData(
    name: string, nis: string, className: string,
    academicScore: Option<real>, behaviorScore: Option<real>, achievementScore: Option<real>,
    leadershipScore: Option<real>, attendanceScore: Option<real>)

  /** Lines 61-70, 113-123: every field empty. */
  const EmptyForm := FormData("", "", "", None, None, None, None, None)

  /** `Number(field)`: the empty string reads as 0. */
  function ToNumber(field: Option<real>): (x: real)
    ensures field == None ==> x == 0.0
    ensures field.Some? ==> x == field.value
  {
    match field
    case None => 0.0
    case Some(v) => v
  }

  /** Lines 78-87: the record the form describes, with the given id. */
  function FromForm(form: FormData, id: int): (s: Student)
    ensures s.id == id && s.name == form.name && s.nis == form.nis && s.className == form.className
    ensures s.academicScore == ToNumber(form.academicScore) && s.behaviorScore == ToNumber(form.behaviorScore)
    ensures s.achievementScore == ToNumber(form.achievementScore) && s.leadershipScore == ToNumber(form.leadershipScore)
    ensures s.attendanceScore == ToNumber(form.attendanceScore)
  {
    Student(id, form.name, form.nis, form.className,
      ToNumber(form.academicScore), ToNumber(form.behaviorScore), ToNumber(form.achievementScore),
      ToNumber(form.leadershipScore), ToNumber(form.attendanceScore))
  }

  /** Lines 128-137: the form loaded from a record. */
  function ToForm(s: Student): (form: FormData)
    ensures FromForm(form, s.id) == s
  {
    FormData(s.name, s.nis, s.className,
      Some(s.academicScore), Some(s.behaviorScore), Some(s.achievementScore),
      Some(s.leadershipScore), Some(s.attendanceScore))
  }

  /** `Math.max(...students.map(s => s.id), 0)`. */
  function MaxId(students: seq<Student>): (m: int)
    ensures m >= 0
    ensures forall k :: 0 <= k < |students| ==> students[k].id <= m
    ensures m == 0 || exists k :: 0 <= k < |students| && students[k].id == m
  {
    if |students| == 0 then 0
    else
      var rest := MaxId(students[..|students| - 1]);
      var last := students[|students| - 1].id;
      if last > rest then last else rest
  }

  /**
   * Lines 98-102: the old records stay in place and one record is appended,
   * the form's record with an id above every old id and above 0.
   */
  function Add(students: seq<Student>, form: FormData): (r: seq<Student>)
    ensures |r| == |students| + 1 && r[..|students|] == students
    ensures r[|students|] == FromForm(form, MaxId(students) + 1)
    ensures r[|students|].id > 0 && forall k :: 0 <= k < |students| ==> students[k].id < r[|students|].id
  {
    students + [FromForm(form, MaxId(students) + 1)]
  }

  /** Lines 90-92: records with the edited id are replaced by the form, keeping that id. */
  function Edit(students: seq<Student>, editingId: int, form: FormData): (r: seq<Student>)
    ensures |r| == |students|
  {
    seq(|students|, k requires 0 <= k < |students| =>
      if students[k].id == editingId then FromForm(form, editingId) else students[k])
  }

  /** Line 143: `students.filter(s => s.id !== id)`. */
  function Delete(students: seq<Student>, id: int): (r: seq<Student>)
    ensures |r| <= |students|
  {
    if |students| == 0 then []
    else
      var rest := Delete(students[..|students| - 1], id);
      var last := students[|students| - 1];
      if last.id != id then rest + [last] else rest
  }

  /** No two records share an id. */
  predicate DistinctIds(students: seq<Student>)
  {
    forall k, l :: 0 <= k < l < |students| ==> students[k].id != students[l].id
  }

  /** Every id is positive, as `Math.max(..., 0) + 1` and the initial ids 1, 2, 3 are. */
  predicate PositiveIds(students: seq<Student>)
  {
    forall k :: 0 <= k < |students| ==> students[k].id > 0
  }

  /** Adding keeps ids distinct and positive. */
  lemma AddKeepsIds(students: seq<Student>, form: FormData)
    requires DistinctIds(students) && PositiveIds(students)
    ensures DistinctIds(Add(students, form)) && PositiveIds(Add(students, form))
  {
    var r := Add(students, form);
    forall k, l | 0 <= k < l < |r|
      ensures r[k].id != r[l].id
    {
      if l < |students| {
        assert r[k] == students[k] && r[l] == students[l];
      }
    }
  }

  /**
   * Editing keeps the length and every id in its place; a record whose id is
   * not `editingId` is unchanged, and one whose id is becomes the form's record.
   */
  lemma EditKeepsPlaces(students: seq<Student>, editingId: int, form: FormData)
    ensures |Edit(students, editingId, form)| == |students|
    ensures forall k :: 0 <= k < |students| ==> Edit(students, editingId, form)[k].id == students[k].id
    ensures forall k :: 0 <= k < |students| && students[k].id != editingId ==> Edit(students, editingId, form)[k] == students[k]
    ensures forall k :: 0 <= k < |students| && students[k].id == editingId ==> Edit(students, editingId, form)[k] == FromForm(form, editingId)
  {
  }

  /** Editing keeps ids distinct and positive. */
  lemma EditKeepsIds(students: seq<Student>, editingId: int, form: FormData)
    requires DistinctIds(students) && PositiveIds(students)
    ensures DistinctIds(Edit(students, editingId, form)) && PositiveIds(Edit(students, editingId, form))
  {
    EditKeepsPlaces(students, editingId, form);
  }

  /** Deleting removes exactly the records with that id. */
  lemma {:induction false} DeleteMembers(students: seq<Student>, id: int)
    ensures forall s :: s in Delete(students, id) <==> s in students && s.id != id
  {
    if |students| > 0 {
      var init := students[..|students| - 1];
      DeleteMembers(init, id);
      assert students == init + [students[|students| - 1]];
    }
  }

  /** Deleting from a concatenation deletes from each part: the kept records stay in order. */
  lemma {:induction false} DeleteConcat(a: seq<Student>, b: seq<Student>, id: int)
    ensures Delete(a + b, id) == Delete(a, id) + Delete(b, id)
  {
    if |b| == 0 {
      assert a + b == a;
    } else {
      var init := b[..|b| - 1];
      DeleteConcat(a, init, id);
      assert (a + b)[..|a + b| - 1] == a + init;
    }
  }

  /** Deleting an id nobody has changes nothing. */
  lemma {:induction false} DeleteAbsent(students: seq<Student>, id: int)
    requires forall k :: 0 <= k < |students| ==> students[k].id != id
    ensures Delete(students, id) == students
  {
    if |students| > 0 {
      DeleteAbsent(students[..|students| - 1], id);
    }
  }

  /** Deleting keeps ids distinct and positive. */
  lemma {:induction false} DeleteKeepsIds(students: seq<Student>, id: int)
    requires DistinctIds(students) && PositiveIds(students)
    ensures DistinctIds(Delete(students, id)) && PositiveIds(Delete(students, id))
  {
    DeleteMembers(students, id);
    if |students| > 0 {
      var init := students[..|students| - 1];
      var last := students[|students| - 1];
      DeleteKeepsIds(init, id);
      assert forall j :: 0 <= j < |init| ==> init[j].id != last.id by {
        forall j | 0 <= j < |init|
          ensures init[j].id != last.id
        {
          assert init[j] == students[j];
        }
      }
      DeleteAvoidsId(init, id, last.id);
    }
    forall k | 0 <= k < |Delete(students, id)|
      ensures Delete(students, id)[k].id > 0
    {
      assert Delete(students, id)[k] in students;
    }
  }

  /** A record kept by a deletion is one of the input's, so it avoids any id the input avoids. */
  lemma DeleteAvoidsId(students: seq<Student>, id: int, other: int)
    requires forall j :: 0 <= j < |students| ==> students[j].id != other
    ensures forall k :: 0 <= k < |Delete(students, id)| ==> Delete(students, id)[k].id != other
  {
    DeleteMembers(students, id);
    var r := Delete(students, id);
    forall k | 0 <= k < |r|
      ensures r[k].id != other
    {
      assert r[k] in students;
    }
  }

  /** Lines 25-59: Ahmad Rizki (1), Siti Nurhaliza (2), Budi Santoso (3). */
  const InitialStudents: seq<Student> := [
    Student(1, "Ahmad Rizki", "001234567", "9A", 85.0, 90.0, 75.0, 80.0, 95.0),
    Student(2, "Siti Nurhaliza", "001234568", "9B", 92.0, 88.0, 85.0, 90.0, 96.0),
    Student(3, "Budi Santoso", "001234569", "9A", 88.0, 85.0, 70.0, 85.0, 92.0)
  ]

  /** The component's state. */
  class StudentManager {
    var students: seq<Student>
    var formData: FormData
    /** `editingId`: null (None) when adding. */
    var editingId: Option<int>
    var isDialogOpen: bool

    /** Ids are distinct and positive. */
    predicate Valid()
      reads this
    {
      DistinctIds(students) && PositiveIds(students)
    }

    /** Lines 25-73. */
    constructor()
      ensures students == InitialStudents && formData == EmptyForm && editingId == None && !isDialogOpen
      ensures Valid()
    {
      students := InitialStudents;
      formData := EmptyForm;
      editingId := None;
      isDialogOpen := false;
    }

    /**
     * Lines 75-111. `if (editingId)` tests truthiness, so an editing id of 0
     * takes the add branch like null does. Afterwards the form is empty and
     * the dialog closed.
     */
    method HandleSubmit()
      requires Valid()
      modifies this
      ensures old(editingId).Some? && old(editingId).value != 0 ==>
        students == Edit(old(students), old(editingId).value, old(formData))
      ensures old(editingId) == None || old(editingId) == Some(0) ==>
        students == Add(old(students), old(formData))
      ensures formData == EmptyForm && editingId == None && !isDialogOpen
      ensures Valid()
    {
      if editingId.Some? && editingId.value != 0 {
        EditKeepsIds(students, editingId.value, formData);
        students := Edit(students, editingId.value, formData);
      } else {
        AddKeepsIds(students, formData);
        students := Add(students, formData);
      }
      ResetForm();
      isDialogOpen := false;
    }

    /** Lines 113-125. */
    method ResetForm()
      modifies this
      ensures formData == EmptyForm && editingId == None
      ensures students == old(students) && isDialogOpen == old(isDialogOpen)
    {
      formData := EmptyForm;
      editingId := None;
    }

    /** Lines 127-140: the form holds the record's fields and the record's id is being edited. */
    method HandleEdit(student: Student)
      modifies this
      ensures formData == ToForm(student) && editingId == Some(student.id) && isDialogOpen
      ensures students == old(students)
    {
      formData := ToForm(student);
      editingId := Some(student.id);
      isDialogOpen := true;
    }

    /** Lines 142-148. */
    method HandleDelete(id: int)
      requires Valid()
      modifies this
      ensures students == Delete(old(students), id)
      ensures formData == old(formData) && editingId == old(editingId) && isDialogOpen == old(isDialogOpen)
      ensures Valid()
    {
      DeleteKeepsIds(students, id);
      students := Delete(students, id);
    }
  }

  /**
   * Editing a record that was loaded with `HandleEdit` and submitted without
   * changes leaves the list as it was, when ids are distinct.
   */
  lemma EditWithLoadedFormIsIdentity(students: seq<Student>, k: nat)
    requires DistinctIds(students) && k < |students|
    ensures Edit(students, students[k].id, ToForm(students[k])) == students
  {
    EditKeepsPlaces(students, students[k].id, ToForm(students[k]));
  }
}
