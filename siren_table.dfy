/** The static capability table: which data points of which device category
    are exposed as sirens, in declared order. */
module SirenTable {
  import opened SirenTypes

  /** One siren description: the data point it is keyed by, a display name and an optional icon. */
  datatype Description = Description(key: DPCode, name: string, icon: Option<string>)

  /** The table, from Tuya product category to its descriptions:
      "dgnbj" multi-functional sensor, "sgbj" siren alarm, "sp" smart camera. */
  const Sirens: map<string, seq<Description>> := map[
    "dgnbj" := [Description(AlarmSwitch, "Siren", None)],
    "sgbj" := [
      Description(AlarmState, "Siren", Some("mdi:alarm-bell")),
      // Alert state gates the alarm: the siren does not sound while it is off.
      Description(AlertState, "Armed", Some("mdi:shield-lock"))
    ],
    "sp" := [Description(SirenSwitch, "Siren", None)]
  ]

  /** No two descriptions share a key. */
  predicate KeysDistinct(ds: seq<Description>)
  {
    forall i, j :: 0 <= i < j < |ds| ==> ds[i].key != ds[j].key
  }

  /** `SIRENS.get(category)`, with an unknown category read as having no descriptions. */
  function DescriptionsFor(category: string): (r: seq<Description>)
    ensures category !in Sirens ==> r == []
  {
    if category in Sirens then Sirens[category] else []
  }

  /** Within every category, no two descriptions share a key. */
  lemma TableKeysDistinct(category: string)
    ensures KeysDistinct(DescriptionsFor(category))
  {
  }

  /** Looking up each known category gives exactly its declared keys, in declared
      order; every other category gives none. */
  lemma TableContents(category: string)
    ensures category == "dgnbj" ==> |DescriptionsFor(category)| == 1 && DescriptionsFor(category)[0].key == AlarmSwitch
    ensures category == "sgbj" ==>
      |DescriptionsFor(category)| == 2 && DescriptionsFor(category)[0].key == AlarmState && DescriptionsFor(category)[1].key == AlertState
    ensures category == "sp" ==> |DescriptionsFor(category)| == 1 && DescriptionsFor(category)[0].key == SirenSwitch
    ensures category !in {"dgnbj", "sgbj", "sp"} ==> DescriptionsFor(category) == []
  {
  }
}
