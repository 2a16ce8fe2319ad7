/** The static allow-list table `RELEVANT_FIELDS`: for each message type the
    handler submits, the field names it keeps; `UPDATE_VIEW_INFO` carries a
    marker instead of a list because its fields are nested mappings. */
module AllowList {

  datatype Entry = Names(names: seq<string>) | NestedMarker

  const UpdateViewInfo: string := "UPDATE_VIEW_INFO"

  const RelevantFields: map<string, Entry> := map[
    "MAC_INFO_DEV" := Names(["s_wired_mac", "s_wireless_mac", "s_bt_mac"]),
    "MEM_MON_DEV" := Names(["i_free_drop", "i_free_reboot", "i_load", "i_total", "i_buffers",
                            "i_free", "i_cache", "i_warn", "i_limit"]),
    "C4A_SETTING_INFO" := Names(["s_timezone"]),
    "BUILD_INFO_DEV" := Names(["i_beta", "i_package_ver", "s_platform", "s_lgcode", "s_package",
                               "s_dsp", "s_c4a", "s_hdmi", "s_lgrev", "s_time", "s_main", "s_micom",
                               "s_rear_rx", "s_rear_tx", "s_woofer_rx", "s_woofer_tx", "s_meq", "s_peq"]),
    UpdateViewInfo := NestedMarker
  ]

  /** The allow-list of a known message type. The marker admits no name; the
      handler never consults it, because it tests the message type first. */
  function AllowedNames(msg: string): seq<string>
    requires msg in RelevantFields
  {
    match RelevantFields[msg]
    case Names(ns) => ns
    case NestedMarker => []
  }

  /** The table has five message types, and the nested marker stands for
      `UPDATE_VIEW_INFO` alone. */
  lemma TableShape()
    ensures RelevantFields.Keys ==
      {"MAC_INFO_DEV", "MEM_MON_DEV", "C4A_SETTING_INFO", "BUILD_INFO_DEV", UpdateViewInfo}
    ensures forall msg :: msg in RelevantFields ==> (RelevantFields[msg] == NestedMarker <==> msg == UpdateViewInfo)
  {
  }
}
