/**
  The site registry (`site_list.csv`): one row per uploaded site file, with
  the coordinates the update sends to the API.
*/
module Registry {
  import opened Wrappers

  datatype SiteEntry = SiteEntry(serial: int, fileName: string, siteId: string, latitude: real, longitude: real)

  datatype Coordinates = Coordinates(latitude: real, longitude: real)

  /**
    The coordinates of the first registry row whose file name is `name`
    (`site_df[site_df['File Name'] == name].iloc[0]`), None when no row has it.
  */
  function Lookup(registry: seq<SiteEntry>, name: string): (r: Option<Coordinates>)
    ensures r.None? <==> forall i :: 0 <= i < |registry| ==> registry[i].fileName != name
    ensures r.Some? ==> exists i :: 0 <= i < |registry| && registry[i].fileName == name
                                   && r.value == Coordinates(registry[i].latitude, registry[i].longitude)
                                   && forall j :: 0 <= j < i ==> registry[j].fileName != name
  {
    if registry == [] then None
    else if registry[0].fileName == name then Some(Coordinates(registry[0].latitude, registry[0].longitude))
    else
      var r := Lookup(registry[1..], name);
      assert forall i :: 1 <= i < |registry| ==> registry[i] == registry[1..][i - 1];
      r
  }

  /** The registry without the rows of file `name`, others kept in order (`df[df['File Name'] != name]`). */
  function Delete(registry: seq<SiteEntry>, name: string): (r: seq<SiteEntry>)
    ensures forall e :: e in r <==> e in registry && e.fileName != name
    ensures |r| <= |registry|
  {
    if registry == [] then []
    else if registry[0].fileName == name then Delete(registry[1..], name)
    else [registry[0]] + Delete(registry[1..], name)
  }

  /** The registry with a row for a new site appended, numbered one past the current row count. */
  function Add(registry: seq<SiteEntry>, name: string, siteId: string, latitude: real, longitude: real)
    : (r: seq<SiteEntry>)
    ensures |r| == |registry| + 1 && r[..|registry|] == registry
    ensures r[|registry|] == SiteEntry(|registry| + 1, name, siteId, latitude, longitude)
  {
    registry + [SiteEntry(|registry| + 1, name, siteId, latitude, longitude)]
  }

  /** Serial numbers run 1, 2, ..., n down the registry. */
  predicate Numbered(registry: seq<SiteEntry>) {
    forall i :: 0 <= i < |registry| ==> registry[i].serial == i + 1
  }

  /** Appending keeps a numbered registry numbered. */
  lemma AddKeepsNumbering(registry: seq<SiteEntry>, name: string, siteId: string, latitude: real, longitude: real)
    requires Numbered(registry)
    ensures Numbered(Add(registry, name, siteId, latitude, longitude))
  {
  }

  /**
    After a site is deleted its file has no coordinates any more, and every
    other file keeps the coordinates it had.
  */
  lemma {:induction false} DeleteThenLookup(registry: seq<SiteEntry>, name: string, other: string)
    ensures Lookup(Delete(registry, name), name).None?
    ensures other != name ==> Lookup(Delete(registry, name), other) == Lookup(registry, other)
  {
    if registry != [] {
      DeleteThenLookup(registry[1..], name, other);
    }
  }

  lemma {:induction false} LookupAppend(registry: seq<SiteEntry>, e: SiteEntry, name: string)
    ensures Lookup(registry + [e], name)
         == if Lookup(registry, name).None? && e.fileName == name then Some(Coordinates(e.latitude, e.longitude))
            else Lookup(registry, name)
  {
    if registry != [] {
      assert (registry + [e])[1..] == registry[1..] + [e];
      LookupAppend(registry[1..], e, name);
    } else {
      assert [] + [e] == [e];
    }
  }

  /**
    Adding a row for a file that is already registered does not change the
    coordinates used for it (the first row wins); a new file gets the
    coordinates of its new row; other files are unaffected.
  */
  lemma AddThenLookup(registry: seq<SiteEntry>, name: string, siteId: string, latitude: real, longitude: real,
                      other: string)
    ensures Lookup(Add(registry, name, siteId, latitude, longitude), other)
         == if other == name && Lookup(registry, name).None? then Some(Coordinates(latitude, longitude))
            else Lookup(registry, other)
  {
    LookupAppend(registry, SiteEntry(|registry| + 1, name, siteId, latitude, longitude), other);
  }
}
