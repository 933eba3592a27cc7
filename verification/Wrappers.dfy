module Wrappers {
  /** The result of an operation that may have nothing to return. */
  datatype Option<+T> = None | Some(value: T)

  /** The texts one after the other. */
  function Joined(texts: seq<string>): string {
    if texts == [] then "" else Joined(texts[..|texts| - 1]) + texts[|texts| - 1]
  }

  lemma JoinedSnoc(texts: seq<string>, t: string)
    ensures Joined(texts + [t]) == Joined(texts) + t
  {
    assert (texts + [t])[..|texts|] == texts;
  }
}
