/** `addDep`: appending one dependency to the `libraries` array of the
    launcher's version descriptor. A JSON library object is modelled as a
    record with a name and an optional maven repository url; the array is a
    sequence of them in array order. */
module Libraries {
  import opened Wrappers

  datatype Library = Library(name: string, url: Option<string>)

  /** The names of `libs`, in order. */
  function Names(libs: seq<Library>): (ns: seq<string>)
    ensures |ns| == |libs|
    ensures forall i :: 0 <= i < |libs| ==> ns[i] == libs[i].name
  {
    if |libs| == 0 then [] else [libs[0].name] + Names(libs[1..])
  }

  /** `addDep(dep, maven, libs)`: exactly one entry is appended, named `dep`;
      it carries the url `maven` when `maven` is non-empty and no url
      otherwise; every earlier entry stays where it was. */
  function AddDep(dep: string, maven: string, libs: seq<Library>): (r: seq<Library>)
    ensures |r| == |libs| + 1
    ensures r[..|libs|] == libs
    ensures r[|libs|].name == dep
    ensures r[|libs|].url.Some? <==> maven != []
    ensures r[|libs|].url.Some? ==> r[|libs|].url.value == maven
  {
    libs + [Library(dep, if maven != [] then Some(maven) else None)]
  }

  /** Appending a dependency appends its name to the list of names. */
  lemma AddDepNames(dep: string, maven: string, libs: seq<Library>)
    ensures Names(AddDep(dep, maven, libs)) == Names(libs) + [dep]
  {
  }

  /** Two dependencies added one after the other appear in that order at the
      end of the array, after everything that was there before. */
  lemma AddDepTwice(d1: string, m1: string, d2: string, m2: string, libs: seq<Library>)
    ensures var r := AddDep(d2, m2, AddDep(d1, m1, libs));
      && |r| == |libs| + 2
      && r[..|libs|] == libs
      && r[|libs|].name == d1
      && r[|libs| + 1].name == d2
  {
  }
}
