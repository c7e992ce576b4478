/** Vocabulary shared by the components. */
module Common {

  datatype Option<+T> = None | Some(value: T)

  /** How one SQL statement issued by a worker ends.
      Done:   it took effect and the caller learned so.
      Failed: it had no effect and the caller got an error.
      Lost:   it took effect, but the caller got an error. */
  datatype Reply = Done | Failed | Lost
  {
    predicate TookEffect() {
      !Failed?
    }
  }

  const TWO_32 := 0x1_0000_0000
  const TWO_63 := 0x8000_0000_0000_0000
  const TWO_64 := 0x1_0000_0000_0000_0000

  type i64 = x: int | -TWO_63 <= x < TWO_63

  predicate NoDuplicates<T(==)>(s: seq<T>) {
    forall i, j :: 0 <= i < j < |s| ==> s[i] != s[j]
  }
}
