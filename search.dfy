/** First-match linear search (Unit08 seminar.py). */
module Search {

  /** Reference definition: the position of the first occurrence of `target`
      in `s`, or -1 when it does not occur. */
  ghost function FirstIndex<T>(s: seq<T>, target: T): int
  {
    if s == [] then -1
    else if s[0] == target then 0
    else if FirstIndex(s[1..], target) == -1 then -1
    else FirstIndex(s[1..], target) + 1
  }

  /** `FirstIndex` is the least index holding `target`, and -1 exactly when
      `target` is absent; it always lies in [-1, |s|). */
  lemma {:induction false} FirstIndexSpec<T>(s: seq<T>, target: T)
    ensures -1 <= FirstIndex(s, target) < |s|
    ensures FirstIndex(s, target) == -1 <==> target !in s
    ensures FirstIndex(s, target) >= 0 ==>
      s[FirstIndex(s, target)] == target &&
      forall j :: 0 <= j < FirstIndex(s, target) ==> s[j] != target
  {
    if s != [] && s[0] != target {
      FirstIndexSpec(s[1..], target);
      assert s == [s[0]] + s[1..];
      var k := FirstIndex(s[1..], target);
      if k >= 0 {
        forall j | 0 <= j < k + 1 ensures s[j] != target {
          if j > 0 {
            assert s[j] == s[1..][j - 1];
          }
        }
      }
    }
  }

  /** `linear_search`: scans from the start and returns the first index whose
      element equals `target`, or -1 when there is none. */
  method LinearSearch<T(==)>(dataList: seq<T>, target: T) returns (index: int)
    ensures -1 <= index < |dataList|
    ensures index >= 0 ==> dataList[index] == target && forall j :: 0 <= j < index ==> dataList[j] != target
    ensures index == -1 <==> target !in dataList
  {
    for i := 0 to |dataList|
      invariant forall j :: 0 <= j < i ==> dataList[j] != target
    {
      if dataList[i] == target {
        return i;
      }
    }
    return -1;
  }

  /** `linear_search_employee_id`: the same scan over a list of employee ids,
      agreeing with the reference definition. */
  method LinearSearchEmployeeId(employees: seq<string>, targetId: string) returns (index: int)
    ensures index == FirstIndex(employees, targetId)
  {
    FirstIndexSpec(employees, targetId);
    var position := 0;
    while position < |employees|
      invariant 0 <= position <= |employees|
      invariant FirstIndex(employees, targetId) == -1 || FirstIndex(employees, targetId) >= position
      invariant forall j :: 0 <= j < position ==> employees[j] != targetId
    {
      FirstIndexSpec(employees, targetId);
      if employees[position] == targetId {
        return position;
      }
      position := position + 1;
    }
    FirstIndexSpec(employees, targetId);
    return -1;
  }

  /** Both searches give the same answer on employee ids. */
  lemma SearchesAgree(employees: seq<string>, targetId: string, index: int)
    requires -1 <= index < |employees|
    requires index >= 0 ==> employees[index] == targetId && forall j :: 0 <= j < index ==> employees[j] != targetId
    requires index == -1 <==> targetId !in employees
    ensures index == FirstIndex(employees, targetId)
  {
    FirstIndexSpec(employees, targetId);
    var f := FirstIndex(employees, targetId);
    if f >= 0 && index >= 0 {
      assert employees[f] == targetId && employees[index] == targetId;
    }
  }
}
