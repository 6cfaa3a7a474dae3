/** The student grade tracker: a growing list of students and the statistics (sum, highest,
    lowest) computed over it. Grades and the running sum are Java `int`s. */
module GradeTracker {
  import opened JavaInt

  datatype Student = Student(name: string, grade: Int32)

  /** The list of students, appended to in place. */
  class GradeBook {
    var students: seq<Student>

    constructor ()
      ensures students == []
    {
      students := [];
    }

    /** `students.add(new Student(name, grade))`: the new student goes last, everyone else keeps
        their place. */
    method AddStudent(name: string, grade: Int32)
      modifies this
      ensures students == old(students) + [Student(name, grade)]
      ensures |students| == |old(students)| + 1 && students[..|old(students)|] == old(students)
    {
      students := students + [Student(name, grade)];
    }
  }

  /** The exact sum of the grades. */
  function Total(students: seq<Student>): int {
    if students == [] then 0 else Total(students[..|students| - 1]) + students[|students| - 1].grade
  }

  /** The smallest grade in a non-empty list, taken from the end as the loop meets the students. */
  function Lowest(students: seq<Student>): Int32
    requires students != []
  {
    var last := students[|students| - 1].grade;
    if |students| == 1 then last
    else
      var rest := Lowest(students[..|students| - 1]);
      if last < rest then last else rest
  }

  /** `Lowest` is the minimum: no grade is smaller, and some student has it. */
  lemma {:induction false} LowestIsMinimum(students: seq<Student>)
    requires students != []
    ensures forall i :: 0 <= i < |students| ==> Lowest(students) <= students[i].grade
    ensures exists i :: 0 <= i < |students| && students[i].grade == Lowest(students)
  {
    var n := |students|;
    if n == 1 {
      assert students[0].grade == Lowest(students);
    } else {
      var init := students[..n - 1];
      LowestIsMinimum(init);
      var k :| 0 <= k < |init| && init[k].grade == Lowest(init);
      if students[n - 1].grade < Lowest(init) {
        assert students[n - 1].grade == Lowest(students);
      } else {
        assert students[k].grade == Lowest(students);
      }
      assert forall i :: 0 <= i < n - 1 ==> students[i] == init[i];
    }
  }

  /** What the statistics option reports: nothing for an empty list, otherwise the sum, the
      highest and the lowest grade as the loop leaves them. */
  datatype Report = NoData | Stats(sum: Int32, highest: Int32, lowest: Int32)

  /** Appending a student adds their grade to the total; every earlier grade is still counted. */
  lemma {:induction false} TotalOfAppend(students: seq<Student>, s: Student)
    ensures Total(students + [s]) == Total(students) + s.grade
  {
    assert (students + [s])[..|students|] == students;
  }

  /** One step of the running `int` sum: adding the next grade to the wrapped sum of a prefix
      gives the wrapped sum of the prefix one longer. */
  lemma SumStep(students: seq<Student>, i: nat, sum: Int32)
    requires i < |students| && sum == Wrap32(Total(students[..i]))
    ensures Wrap32(sum + students[i].grade) == Wrap32(Total(students[..i + 1]))
  {
    assert students[..i + 1] == students[..i] + [students[i]];
    TotalOfAppend(students[..i], students[i]);
    WrapAdd(Total(students[..i]), students[i].grade);
  }

  /** The statistics loop exactly as written: `sum` and `highest` are computed correctly, but the
      stray `;` after `if (s.grade < lowest)` makes the assignment to `lowest` unconditional, so
      `lowest` ends up as the last student's grade. */
  method ComputeStatistics(students: seq<Student>) returns (report: Report)
    ensures report == NoData <==> students == []
    ensures report.Stats? ==>
              && report.sum == Wrap32(Total(students))
              && (MIN_INT <= Total(students) <= MAX_INT ==> report.sum == Total(students))
              && (forall i :: 0 <= i < |students| ==> students[i].grade <= report.highest)
              && (exists i :: 0 <= i < |students| && students[i].grade == report.highest)
              && report.lowest == students[|students| - 1].grade
  {
    if students == [] {
      return NoData;
    }
    var sum: Int32, highest: Int32, lowest: Int32 := 0, MIN_INT, MAX_INT;
    ghost var top := 0;
    for i := 0 to |students|
      invariant sum == Wrap32(Total(students[..i]))
      invariant forall j :: 0 <= j < i ==> students[j].grade <= highest
      invariant i == 0 ==> highest == MIN_INT
      invariant i > 0 ==> 0 <= top < i && students[top].grade == highest
      invariant i > 0 ==> lowest == students[i - 1].grade
    {
      var grade := students[i].grade;
      SumStep(students, i, sum);
      sum := Wrap32(sum + grade);
      if grade > highest {
        highest := grade;
        top := i;
      } else if i == 0 {
        top := i;
      }
      if grade < lowest {
        // the source's `if` ends at its `;`: the body is empty
      }
      lowest := grade;
    }
    assert students[..|students|] == students;
    report := Stats(sum, highest, lowest);
  }

  /** A two-student list whose last grade is not the lowest: the as-written loop reports 2 as the
      lowest grade of [1, 2]. */
  lemma LowestIsLastNotMinimum()
    ensures var students := [Student("Ann", 1), Student("Bob", 2)];
            && students[|students| - 1].grade == 2
            && Lowest(students) == 1
  {
    var students := [Student("Ann", 1), Student("Bob", 2)];
    assert students[..1] == [Student("Ann", 1)];
  }

  /** The `int` sum wraps: two grades of `Integer.MAX_VALUE` and 1 add up to `Integer.MIN_VALUE`. */
  lemma SumOverflowWraps()
    ensures Wrap32(Total([Student("Ann", MAX_INT)] + [Student("Bob", 1)])) == MIN_INT
  {
    var first := [Student("Ann", MAX_INT)];
    var students := first + [Student("Bob", 1)];
    TotalOfAppend([], first[0]);
    assert [] + first == first;
    TotalOfAppend(first, Student("Bob", 1));
  }

  /** One step of the fixed `lowest` update: starting from `Integer.MAX_VALUE`, or from the lowest
      grade of a prefix, keeping the smaller of it and the next grade gives the lowest grade of the
      prefix one longer. */
  lemma LowestStep(students: seq<Student>, i: nat, lowest: Int32)
    requires i < |students|
    requires i == 0 ==> lowest == MAX_INT
    requires i > 0 ==> lowest == Lowest(students[..i])
    ensures (if students[i].grade < lowest then students[i].grade else lowest) == Lowest(students[..i + 1])
  {
    assert students[..i + 1][..i] == students[..i];
  }

  /** The statistics loop with the evident intent for `lowest`: it is replaced only by a
      smaller grade, so it ends up as the lowest grade. */
  method ComputeStatisticsFixed(students: seq<Student>) returns (report: Report)
    ensures report == NoData <==> students == []
    ensures report.Stats? ==>
              && report.sum == Wrap32(Total(students))
              && (forall i :: 0 <= i < |students| ==> students[i].grade <= report.highest)
              && (exists i :: 0 <= i < |students| && students[i].grade == report.highest)
              && report.lowest == Lowest(students)
  {
    if students == [] {
      return NoData;
    }
    var sum: Int32, highest: Int32, lowest: Int32 := 0, MIN_INT, MAX_INT;
    ghost var top := 0;
    for i := 0 to |students|
      invariant sum == Wrap32(Total(students[..i]))
      invariant forall j :: 0 <= j < i ==> students[j].grade <= highest
      invariant i == 0 ==> highest == MIN_INT && lowest == MAX_INT
      invariant i > 0 ==> 0 <= top < i && students[top].grade == highest
      invariant i > 0 ==> lowest == Lowest(students[..i])
    {
      var grade := students[i].grade;
      LowestStep(students, i, lowest);
      SumStep(students, i, sum);
      sum := Wrap32(sum + grade);
      if grade > highest {
        highest := grade;
        top := i;
      } else if i == 0 {
        top := i;
      }
      if grade < lowest {
        lowest := grade;
      }
    }
    assert students[..|students|] == students;
    report := Stats(sum, highest, lowest);
  }
}
