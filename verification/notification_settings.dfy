/** The notification settings (views/NotificationSettingsView.tsx): five
    on/off preferences, grouped into three sections of switches, each switch
    flipping its own preference. */
module NotificationSettings {
  import opened Types

  /** The keys of the preference record. */
  datatype PrefKey = InteractKey | SystemKey | PushKey | SoundKey | VibrationKey

  datatype Prefs = Prefs(interact: bool, system: bool, push: bool, sound: bool, vibration: bool)

  /** The screen opens with every preference on except vibration. */
  const INITIAL_PREFS: Prefs := Prefs(true, true, true, true, false)

  /** `pref[key]`. */
  function Get(p: Prefs, k: PrefKey): bool {
    match k
    case InteractKey => p.interact
    case SystemKey => p.system
    case PushKey => p.push
    case SoundKey => p.sound
    case VibrationKey => p.vibration
  }

  lemma InitialValues()
    ensures forall k :: Get(INITIAL_PREFS, k) <==> k != VibrationKey
  {
  }

  /** `togglePref(key)`: the spread copies the record and the computed key
      overrides that one entry with its negation. */
  function TogglePref(p: Prefs, k: PrefKey): (r: Prefs)
    ensures Get(r, k) == !Get(p, k)
    ensures forall j :: j != k ==> Get(r, j) == Get(p, j)
  {
    match k
    case InteractKey => p.(interact := !p.interact)
    case SystemKey => p.(system := !p.system)
    case PushKey => p.(push := !p.push)
    case SoundKey => p.(sound := !p.sound)
    case VibrationKey => p.(vibration := !p.vibration)
  }

  /** A record is determined by what `Get` reads from it. */
  lemma PrefsExtensional(p: Prefs, q: Prefs)
    requires forall k :: Get(p, k) == Get(q, k)
    ensures p == q
  {
    assert Get(p, InteractKey) == Get(q, InteractKey) && Get(p, SystemKey) == Get(q, SystemKey);
    assert Get(p, PushKey) == Get(q, PushKey) && Get(p, SoundKey) == Get(q, SoundKey);
    assert Get(p, VibrationKey) == Get(q, VibrationKey);
  }

  /** Flipping a switch twice restores the preferences, and flips of two
      switches can be made in either order. */
  lemma ToggleTwice(p: Prefs, k: PrefKey)
    ensures TogglePref(TogglePref(p, k), k) == p
  {
    forall j ensures Get(TogglePref(TogglePref(p, k), k), j) == Get(p, j) {
    }
    PrefsExtensional(TogglePref(TogglePref(p, k), k), p);
  }

  /** One entry after two flips: it is flipped once for each key it equals. */
  lemma ToggleOrderAt(p: Prefs, a: PrefKey, b: PrefKey, j: PrefKey)
    ensures Get(TogglePref(TogglePref(p, a), b), j) == Get(TogglePref(TogglePref(p, b), a), j)
  {
  }

  lemma ToggleCommutes(p: Prefs, a: PrefKey, b: PrefKey)
    ensures TogglePref(TogglePref(p, a), b) == TogglePref(TogglePref(p, b), a)
  {
    forall j ensures Get(TogglePref(TogglePref(p, a), b), j) == Get(TogglePref(TogglePref(p, b), a), j) {
      ToggleOrderAt(p, a, b, j);
    }
    PrefsExtensional(TogglePref(TogglePref(p, a), b), TogglePref(TogglePref(p, b), a));
  }

  /** The string a section item names its preference by. */
  function KeyName(k: PrefKey): string {
    match k
    case InteractKey => "interact"
    case SystemKey => "system"
    case PushKey => "push"
    case SoundKey => "sound"
    case VibrationKey => "vibration"
  }

  /** The cast `item.key as keyof typeof pref`, for the five names it can meet. */
  function KeyOfName(s: string): (k: Option<PrefKey>)
    ensures k.Some? ==> KeyName(k.value) == s
  {
    if s == "interact" then Some(InteractKey)
    else if s == "system" then Some(SystemKey)
    else if s == "push" then Some(PushKey)
    else if s == "sound" then Some(SoundKey)
    else if s == "vibration" then Some(VibrationKey)
    else None
  }

  /** Reading a key's name back gives the key, so distinct keys have distinct names. */
  lemma KeyNameRoundTrip(k: PrefKey)
    ensures KeyOfName(KeyName(k)) == Some(k)
  {
  }

  datatype Item = Item(key: string, caption: string, sub: string)

  datatype Section = Section(title: string, items: seq<Item>)

  const SECTIONS: seq<Section> := [
    Section("提醒类型", [
      Item("interact", "互动通知", "包括点赞、回复、粉丝关注等"),
      Item("system", "系统通知", "包括活动提醒、服务更新、奖励通知")]),
    Section("推送设置", [
      Item("push", "应用外推送", "关闭后将无法在状态栏接收实时消息")]),
    Section("声音与震动", [
      Item("sound", "提示音", "接收通知时播放提示音"),
      Item("vibration", "震动", "接收通知时触发震动")])
  ]

  /** The switches in the order the page draws them. */
  function Rows(ss: seq<Section>): (rows: seq<Item>)
    ensures |ss| == 0 ==> rows == []
  {
    if |ss| == 0 then [] else ss[0].items + Rows(ss[1..])
  }

  /** The page has five switches, one per preference, in record order; every
      item's key names a preference, so each switch reaches exactly one. */
  lemma SwitchesCoverPrefs()
    ensures |Rows(SECTIONS)| == 5
    ensures forall i :: 0 <= i < 5 ==> KeyOfName(Rows(SECTIONS)[i].key).Some?
    ensures forall k :: exists i | 0 <= i < 5 :: Rows(SECTIONS)[i].key == KeyName(k)
    ensures forall i, j :: 0 <= i < j < 5 ==> Rows(SECTIONS)[i].key != Rows(SECTIONS)[j].key
  {
    var s := SECTIONS;
    assert s[2..][1..] == [];
    assert Rows(s[2..]) == s[2].items;
    assert s[1..][1..] == s[2..];
    assert Rows(s[1..]) == s[1].items + s[2].items;
    var rows := Rows(s);
    assert rows == s[0].items + s[1].items + s[2].items;
    assert rows[0].key == "interact" && rows[1].key == "system" && rows[2].key == "push";
    assert rows[3].key == "sound" && rows[4].key == "vibration";
    forall k ensures exists i | 0 <= i < 5 :: rows[i].key == KeyName(k) {
      match k
      case InteractKey => assert rows[0].key == KeyName(k);
      case SystemKey => assert rows[1].key == KeyName(k);
      case PushKey => assert rows[2].key == KeyName(k);
      case SoundKey => assert rows[3].key == KeyName(k);
      case VibrationKey => assert rows[4].key == KeyName(k);
    }
  }

  /** A switch shows "on" (the knob at the right, the primary colour) exactly
      while its preference is set. */
  function SwitchOn(p: Prefs, item: Item): (on: bool)
    ensures KeyOfName(item.key).Some? ==> (on <==> Get(p, KeyOfName(item.key).value))
  {
    match KeyOfName(item.key)
    case Some(k) => Get(p, k)
    case None => false
  }

  /** Pressing a switch changes what it shows and what no other switch shows. */
  lemma PressFlipsOneSwitch(p: Prefs, item: Item, other: Item)
    requires KeyOfName(item.key).Some? && KeyOfName(other.key).Some?
    ensures var r := TogglePref(p, KeyOfName(item.key).value);
      && SwitchOn(r, item) == !SwitchOn(p, item)
      && (other.key != item.key ==> SwitchOn(r, other) == SwitchOn(p, other))
  {
  }
}
