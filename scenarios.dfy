/** Concrete responses and the lines the handler submits for them. */
module Scenarios {
  import opened Values
  import opened AllowList
  import opened Metrics
  import opened MetricLines
  import opened Handler
  import opened Cli

  lemma LowerMacInfo()
    ensures Lower("MAC_INFO_DEV") == "mac_info_dev"
  {
  }

  lemma LowerUpdateViewInfo()
    ensures Lower(UpdateViewInfo) == "update_view_info"
  {
  }

  lemma LineText(msg: string, tag: string, m: Metric)
    requires Lower(msg) == tag
    ensures Line(msg, m) == "- " + tag + "[" + m.key + "] " + Render(m.value)
  {
  }

  /** A `MAC_INFO_DEV` response keeps its three allowed fields in order; the
      empty wired address becomes `""`. */
  lemma MacInfoMetrics()
    ensures Filter("MAC_INFO_DEV", [
        Field("s_wired_mac", VStr("")), Field("s_wireless_mac", VStr("aa:bb")), Field("s_bt_mac", VStr("cc:dd"))])
      == [Metric("s_wired_mac", VStr("\"\"")), Metric("s_wireless_mac", VStr("aa:bb")), Metric("s_bt_mac", VStr("cc:dd"))]
  {
    var msg := "MAC_INFO_DEV";
    var data := [Field("s_wired_mac", VStr("")), Field("s_wireless_mac", VStr("aa:bb")), Field("s_bt_mac", VStr("cc:dd"))];
    var names := AllowedNames(msg);
    assert names == ["s_wired_mac", "s_wireless_mac", "s_bt_mac"];
    assert Normalize("s_wired_mac", VStr("")) == VStr("\"\"");
    var ms := [Metric("s_wired_mac", VStr("\"\"")), Metric("s_wireless_mac", VStr("aa:bb")), Metric("s_bt_mac", VStr("cc:dd"))];
    assert data[1..][1..][1..] == [];
    assert Collect(msg, names, data[1..][1..]) == ms[2..];
    assert Collect(msg, names, data[1..]) == ms[1..];
  }

  /** The line of the empty wired address. */
  lemma MacInfoWiredLine()
    ensures Line("MAC_INFO_DEV", Metric("s_wired_mac", VStr("\"\""))) == "- mac_info_dev[s_wired_mac] \"\""
  {
    LowerMacInfo();
    LineText("MAC_INFO_DEV", "mac_info_dev", Metric("s_wired_mac", VStr("\"\"")));
    assert "- " + "mac_info_dev" + "[" == "- mac_info_dev[";
    assert "- mac_info_dev[" + "s_wired_mac" + "] " == "- mac_info_dev[s_wired_mac] ";
  }

  lemma MacInfoWirelessLine()
    ensures Line("MAC_INFO_DEV", Metric("s_wireless_mac", VStr("aa:bb"))) == "- mac_info_dev[s_wireless_mac] aa:bb"
  {
    LowerMacInfo();
    LineText("MAC_INFO_DEV", "mac_info_dev", Metric("s_wireless_mac", VStr("aa:bb")));
    assert "- " + "mac_info_dev" + "[" == "- mac_info_dev[";
    assert "- mac_info_dev[" + "s_wireless_mac" + "] " == "- mac_info_dev[s_wireless_mac] ";
  }

  lemma MacInfoBtLine()
    ensures Line("MAC_INFO_DEV", Metric("s_bt_mac", VStr("cc:dd"))) == "- mac_info_dev[s_bt_mac] cc:dd"
  {
    LowerMacInfo();
    LineText("MAC_INFO_DEV", "mac_info_dev", Metric("s_bt_mac", VStr("cc:dd")));
    assert "- " + "mac_info_dev" + "[" == "- mac_info_dev[";
    assert "- mac_info_dev[" + "s_bt_mac" + "] " == "- mac_info_dev[s_bt_mac] ";
  }

  /** The three lines the `MAC_INFO_DEV` reply submits, in order. */
  lemma MacInfoLines()
    ensures Lines("MAC_INFO_DEV", [
        Field("s_wired_mac", VStr("")), Field("s_wireless_mac", VStr("aa:bb")), Field("s_bt_mac", VStr("cc:dd"))])
      == ["- mac_info_dev[s_wired_mac] \"\"", "- mac_info_dev[s_wireless_mac] aa:bb", "- mac_info_dev[s_bt_mac] cc:dd"]
  {
    MacInfoMetrics();
    var ms := [Metric("s_wired_mac", VStr("\"\"")), Metric("s_wireless_mac", VStr("aa:bb")), Metric("s_bt_mac", VStr("cc:dd"))];
    FormatAt("MAC_INFO_DEV", ms);
    MacInfoWiredLine();
    MacInfoWirelessLine();
    MacInfoBtLine();
  }

  /** A field outside the allow-list, `s_uuid`, is dropped. */
  lemma MacInfoDropsUnlisted()
    ensures Filter("MAC_INFO_DEV", [Field("s_uuid", VStr("u-1")), Field("s_bt_mac", VStr("cc:dd"))])
      == [Metric("s_bt_mac", VStr("cc:dd"))]
  {
    var msg := "MAC_INFO_DEV";
    var data := [Field("s_uuid", VStr("u-1")), Field("s_bt_mac", VStr("cc:dd"))];
    var names := AllowedNames(msg);
    assert names == ["s_wired_mac", "s_wireless_mac", "s_bt_mac"];
    assert "s_uuid" !in names;
    assert data[1..][1..] == [];
    assert Collect(msg, names, data[1..]) == [Metric("s_bt_mac", VStr("cc:dd"))];
  }

  /** An `UPDATE_VIEW_INFO` response: nested keys are `outer__inner`, the
      empty number becomes `0` and the empty string `""`; the scalar
      top-level field is skipped. */
  lemma UpdateViewInfoMetrics()
    ensures Filter(UpdateViewInfo, [
        Field("group1", VMap([Field("i_x", VInt(0)), Field("s_y", VStr(""))])),
        Field("i_scalar", VInt(7))])
      == [Metric("group1__i_x", VInt(0)), Metric("group1__s_y", VStr("\"\""))]
  {
    var entries := [Field("i_x", VInt(0)), Field("s_y", VStr(""))];
    var data := [Field("group1", VMap(entries)), Field("i_scalar", VInt(7))];
    var names := AllowedNames(UpdateViewInfo);
    assert entries[1..][1..] == [] && data[1..][1..] == [];
    assert "group1" + "__" + "i_x" == "group1__i_x";
    assert "group1" + "__" + "s_y" == "group1__s_y";
    assert Normalize("i_x", VInt(0)) == VInt(0);
    assert Normalize("s_y", VStr("")) == VStr("\"\"");
    var ms := [Metric("group1__i_x", VInt(0)), Metric("group1__s_y", VStr("\"\""))];
    assert NestedMetrics("group1", entries[1..]) == ms[1..];
    assert NestedMetrics("group1", entries) == ms;
    assert Collect(UpdateViewInfo, names, data[1..]) == [];
  }

  /** The line of the empty nested number. */
  lemma UpdateViewInfoZeroLine()
    ensures Line(UpdateViewInfo, Metric("group1__i_x", VInt(0))) == "- update_view_info[group1__i_x] 0"
  {
    LowerUpdateViewInfo();
    LineText(UpdateViewInfo, "update_view_info", Metric("group1__i_x", VInt(0)));
    assert "- " + "update_view_info" + "[" == "- update_view_info[";
    assert "- update_view_info[" + "group1__i_x" + "] " == "- update_view_info[group1__i_x] ";
    assert Render(VInt(0)) == "0";
  }

  /** The line of the empty nested string. */
  lemma UpdateViewInfoEmptyLine()
    ensures Line(UpdateViewInfo, Metric("group1__s_y", VStr("\"\""))) == "- update_view_info[group1__s_y] \"\""
  {
    LowerUpdateViewInfo();
    LineText(UpdateViewInfo, "update_view_info", Metric("group1__s_y", VStr("\"\"")));
    assert "- " + "update_view_info" + "[" == "- update_view_info[";
    assert "- update_view_info[" + "group1__s_y" + "] " == "- update_view_info[group1__s_y] ";
  }

  /** The two lines the `UPDATE_VIEW_INFO` reply submits, in order. */
  lemma UpdateViewInfoLines()
    ensures Lines(UpdateViewInfo, [
        Field("group1", VMap([Field("i_x", VInt(0)), Field("s_y", VStr(""))])),
        Field("i_scalar", VInt(7))])
      == ["- update_view_info[group1__i_x] 0", "- update_view_info[group1__s_y] \"\""]
  {
    UpdateViewInfoMetrics();
    var ms := [Metric("group1__i_x", VInt(0)), Metric("group1__s_y", VStr("\"\""))];
    FormatAt(UpdateViewInfo, ms);
    UpdateViewInfoZeroLine();
    UpdateViewInfoEmptyLine();
  }

  /** The nested name decides the normalisation, not the composite key: an
      outer name starting with `s` does not make an empty number a string. */
  lemma NestedNameDecides()
    ensures Filter(UpdateViewInfo, [Field("s_group", VMap([Field("i_x", VBool(false))]))])
      == [Metric("s_group__i_x", VInt(0))]
  {
    var entries := [Field("i_x", VBool(false))];
    var data := [Field("s_group", VMap(entries))];
    var names := AllowedNames(UpdateViewInfo);
    assert entries[1..] == [] && data[1..] == [];
    assert "s_group" + "__" + "i_x" == "s_group__i_x";
    assert Normalize("i_x", VBool(false)) == VInt(0);
    assert NestedMetrics("s_group", entries) == [Metric("s_group__i_x", VInt(0))];
    assert Collect(UpdateViewInfo, names, data) == FieldMetrics(UpdateViewInfo, names, data[0]);
  }

  /** With three lines and the sender rejecting the second, the third is
      never sent and the process exits with code 1. */
  lemma SecondLineRejected(l1: string, l2: string, l3: string, send: string -> int)
    requires send(l1) == 0 && send(l2) != 0
    ensures Submission([l1, l2, l3], send) == Trace([l1, l2], Exited(1))
  {
    SubmissionStopsAt([l1, l2, l3], send, 1);
    assert [l1, l2, l3][..2] == [l1, l2];
  }

  /** An endpoint outside the nine choices stops with the usage error and
      queries nothing. */
  lemma UnsupportedEndpoint(ip: string)
    ensures Dispatch(Some(ip), Some("radio_info")) == UsageError(2)
  {
  }
}
