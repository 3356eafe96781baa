/** The payloads the two export paths hand to the spreadsheet writer
    (`exportExcel` and `handleClickDetails` in
    src/components/SearchBar/index.js). The record parser is a parameter
    whose `None` stands for a rejected promise. */
module Export {
  import opened Wrappers
  import opened Wells

  /** Whether every well has the `wellData` object the grouping key
      `well => well.wellData.Region` reads; otherwise that key function
      throws a `TypeError` inside `groupBy`. */
  predicate AllHaveWellData(wells: seq<Well>) {
    forall i :: 0 <= i < |wells| ==> wells[i].wellData.Some?
  }

  /** Whether the parser accepts every group. */
  predicate AllParse<P>(groups: seq<(RegionKey, seq<Well>)>, parse: Batch -> Option<P>) {
    forall j :: 0 <= j < |groups| ==> parse(Group(groups[j].1)).Some?
  }

  /** The loop of `exportExcel`: each `[key, wells]` group, in order, is
      parsed and pushed as `{ key, value }`. A parse that rejects ends the
      export before anything is written. */
  method ParseGroups<P>(groups: seq<(RegionKey, seq<Well>)>, parse: Batch -> Option<P>)
    returns (payload: Option<seq<Entry<P>>>)
    ensures payload.Some? <==> AllParse(groups, parse)
    ensures payload.Some? ==> |payload.value| == |groups|
    ensures payload.Some? ==> forall j :: 0 <= j < |groups| ==>
      payload.value[j] == Entry(groups[j].0, parse(Group(groups[j].1)).value)
  {
    var parsedObject: seq<Entry<P>> := [];
    var i := 0;
    while i < |groups|
      invariant 0 <= i <= |groups|
      invariant |parsedObject| == i
      invariant forall j :: 0 <= j < i ==> parse(Group(groups[j].1)).Some?
      invariant forall j :: 0 <= j < i ==>
        parsedObject[j] == Entry(groups[j].0, parse(Group(groups[j].1)).value)
    {
      var parsedJson := parse(Group(groups[i].1));
      if parsedJson.None? {
        return None;
      }
      parsedObject := parsedObject + [Entry(groups[i].0, parsedJson.value)];
      i := i + 1;
    }
    return Some(parsedObject);
  }

  /** `handleClickDetails`' payload `[{ key: chosenWell.wellData.Region,
      value: parsedJson }]`: one entry, keyed by the well's own region. The
      parser is given the well itself, not a one-well group. `None` when the
      parser rejects or the well has no `wellData` (a `TypeError`). */
  function DetailPayload<P>(chosen: Well, parse: Batch -> Option<P>): (payload: Option<seq<Entry<P>>>)
    ensures payload.Some? <==> parse(Single(chosen)).Some? && chosen.wellData.Some?
    ensures payload.Some? ==> |payload.value| == 1
    ensures payload.Some? ==> payload.value[0].key == chosen.wellData.value.region
    ensures payload.Some? ==> payload.value[0].value == parse(Single(chosen)).value
  {
    var parsedJson := parse(Single(chosen));
    if parsedJson.None? || chosen.wellData.None? then None
    else Some([Entry(chosen.wellData.value.region, parsedJson.value)])
  }
}
