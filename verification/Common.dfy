/** Small things that several modules share. */
module Common {
  datatype Option<+T> = None | Some(value: T)

  /** The elements of a list. */
  function Listed(s: seq<nat>): set<nat> {
    set x | x in s
  }

  /** The list without its i-th element. */
  function Without(s: seq<nat>, i: nat): (r: seq<nat>)
    requires i < |s|
    ensures |r| == |s| - 1
  {
    s[..i] + s[i + 1..]
  }
}
