/** Shared by the other modules. */
module Common {
  datatype Option<T> = None | Some(value: T)

  ghost function Elements<T>(s: seq<T>): set<T> {
    set x | x in s
  }
}
