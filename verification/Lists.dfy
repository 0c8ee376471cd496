/** Lists of names. */

module Lists {

  ghost predicate NoDup(names: seq<string>) {
    forall i, j :: 0 <= i < j < |names| ==> names[i] != names[j]
  }

  ghost function SetOf(names: seq<string>): set<string> {
    set name | name in names
  }

  lemma PrefixNext(names: seq<string>, i: nat)
    requires i < |names|
    ensures SetOf(names[..i + 1]) == SetOf(names[..i]) + {names[i]}
  {
    assert names[..i + 1] == names[..i] + [names[i]];
  }

  lemma WholePrefix(names: seq<string>)
    ensures SetOf(names[..|names|]) == SetOf(names) && SetOf(names[..0]) == {}
  {
    assert names[..|names|] == names;
  }
}
