/** The popup: the account switch and remove buttons, the font-size and
    spacing clamps, the colour inputs and the settings load/save pair. The
    accounts and settings read from storage are fresh copies, so the
    handlers are modelled on values. */
module Popup {
  import opened Optional
  import opened JsObject
  import opened Accounts
  import ChatRender

  // Account buttons

  /** The switch button: every entry's `active` set to whether it is the
    chosen user. */
  method SwitchHandler(stored: seq<Account>, userId: string) returns (accounts: seq<Account>)
    ensures accounts == Switched(stored, userId)
  {
    accounts := SetActiveFlags(stored, userId);
  }

  /** The remove button: the user's entries filtered out, then the first
    remaining entry made active when none is. */
  method RemoveHandler(stored: seq<Account>, userId: string) returns (accounts: seq<Account>)
    ensures accounts == Removed(stored, userId)
  {
    accounts := FilterOut(stored, userId);
    var some := SomeActive(accounts);
    if |accounts| > 0 && !some {
      accounts := accounts[0 := accounts[0].(active := true)];
    }
  }

  // Clamps

  /** `clampFontSize`: `Math.min(20, Math.max(10, v))`. */
  function ClampFontSize(v: int): (r: int)
    ensures 10 <= r <= 20
    ensures 10 <= v <= 20 ==> r == v
    ensures v < 10 ==> r == 10
    ensures v > 20 ==> r == 20
  {
    if v < 10 then 10 else if v > 20 then 20 else v
  }

  /** `clampMsgSpacing`: `Math.min(20, Math.max(0, v))`. */
  function ClampMsgSpacing(v: int): (r: int)
    ensures 0 <= r <= 20
    ensures 0 <= v <= 20 ==> r == v
    ensures v < 0 ==> r == 0
    ensures v > 20 ==> r == 20
  {
    if v < 0 then 0 else if v > 20 then 20 else v
  }

  /** The font-size stepper buttons move one step and stay in range: from
    an in-range value they step exactly, except at the ends where they
    stay put. */
  lemma FontSizeSteps(v: int)
    requires 10 <= v <= 20
    ensures ClampFontSize(v + 1) == if v == 20 then 20 else v + 1
    ensures ClampFontSize(v - 1) == if v == 10 then 10 else v - 1
    ensures v < 20 ==> ClampFontSize(ClampFontSize(v + 1) - 1) == v
  {
  }

  // Colour inputs

  /** `/^#[0-9a-fA-F]{6}$/`: a `#` and six hex digits, nothing else. */
  predicate IsHexColor(s: string)
  {
    |s| == 7 && s[0] == '#' && forall k :: 1 <= k < 7 ==> ChatRender.IsHex(s[k])
  }

  /** The character class `[0-9a-fA-F]` is exactly the hex digits. */
  lemma HexClass(c: char)
    ensures ChatRender.IsHex(c) <==> ('0' <= c <= '9') || ('a' <= c <= 'f') || ('A' <= c <= 'F')
  {
  }

  /** A colour the input accepts is `#` followed by six digits that read
    back, under the chat's `parseInt(…, 16)`, as a 24-bit colour. */
  lemma HexColorParses(s: string)
    requires IsHexColor(s)
    ensures s == "#" + s[1..] && ChatRender.AllHex(s[1..])
    ensures ChatRender.ParseIntHex(s[1..]) == Some(ChatRender.HexValue(s[1..]))
    ensures 0 <= ChatRender.HexValue(s[1..]) < 0x100_0000
  {
    var ds := s[1..];
    assert ChatRender.AllHex(ds) by {
      forall k | 0 <= k < |ds| ensures ChatRender.IsHex(ds[k]) {
        assert ds[k] == s[k + 1];
      }
    }
    ChatRender.ParseHexDigits(ds);
    assert ChatRender.Pow16(6) == 0x100_0000;
  }

  /** A `#` with fewer or more than six digits, or a non-digit, is
    rejected. */
  lemma NotHexColors()
    ensures !IsHexColor("#fff")
    ensures !IsHexColor("#0e0e100")
    ensures !IsHexColor("#0e0e1g")
    ensures IsHexColor("#0e0e10")
  {
    assert ChatRender.IsHex("#0e0e1g"[6]) == false;
  }

  /** The colour input handler: the new value is shown in the swatch and
    saved only when it is a full hex colour; otherwise nothing happens. */
  function ColorInput(value: string, swatch: string, saves: nat): (r: (string, nat))
    ensures IsHexColor(value) ==> r == (value, saves + 1)
    ensures !IsHexColor(value) ==> r == (swatch, saves)
  {
    if IsHexColor(value) then (value, saves + 1) else (swatch, saves)
  }

  // Settings

  /** A settings value: a number, a checkbox, a colour, `null`, or the
    emote-provider switches. */
  datatype SettingValue =
    | Number(n: int)
    | Flag(b: bool)
    | Text(s: string)
    | Null
    | Providers(on: map<string, bool>)

  /** The keys of the settings object. */
  datatype Key =
    | FontSize | MessageSpacing | ShowTimestamps | ShowBadges | EmoteProviders
    | MessageCap | ChatWidth | BgOdd | BgEven

  type Settings = map<Key, SettingValue>

  /** `DEFAULT_SETTINGS`. */
  const DefaultSettings: Settings := map[
    FontSize := Number(13),
    MessageSpacing := Number(2),
    ShowTimestamps := Flag(true),
    ShowBadges := Flag(true),
    EmoteProviders := Providers(map["twitch" := true, "7tv" := true, "bttv" := true, "ffz" := true]),
    MessageCap := Number(500),
    ChatWidth := Null,
    BgOdd := Text("#0e0e10"),
    BgEven := Text("#111114")]

  /** `{ ...DEFAULT_SETTINGS, ...settings }`; nothing stored spreads as
    nothing. */
  function LoadSettings(stored: Option<Settings>): (r: Settings)
    ensures stored.None? ==> r == DefaultSettings
    ensures stored.Some? ==> r.Keys == DefaultSettings.Keys + stored.value.Keys
    ensures stored.Some? ==> forall k :: k in stored.value ==> r[k] == stored.value[k]
    ensures forall k :: k in DefaultSettings && (stored.None? || k !in stored.value) ==> r[k] == DefaultSettings[k]
  {
    Spread(DefaultSettings, if stored.Some? then stored.value else map[])
  }

  /** The settings form. */
  datatype Form = Form(
    fontSize: int, messageSpacing: int, showTimestamps: bool, showBadges: bool,
    messageCap: int, bgOdd: string, bgEven: string,
    twitch: bool, sevenTv: bool, bttv: bool, ffz: bool)

  /** `readSettings`: the form as a settings object (no `chatWidth`). */
  function ReadSettings(f: Form): Settings
  {
    map[
      FontSize := Number(f.fontSize),
      MessageSpacing := Number(f.messageSpacing),
      ShowTimestamps := Flag(f.showTimestamps),
      ShowBadges := Flag(f.showBadges),
      MessageCap := Number(f.messageCap),
      BgOdd := Text(f.bgOdd),
      BgEven := Text(f.bgEven),
      EmoteProviders := Providers(map["twitch" := f.twitch, "7tv" := f.sevenTv, "bttv" := f.bttv, "ffz" := f.ffz])]
  }

  /** A provider checkbox: a missing switch reads as `undefined` and leaves
    the box unchecked. */
  function Checked(on: map<string, bool>, provider: string): bool
  {
    provider in on && on[provider]
  }

  /** The form `loadSettings` fills from loaded settings; `None` when a
    field has a shape the form does not hold. */
  function FillForm(s: Settings): Option<Form>
  {
    if FontSize in s && s[FontSize].Number? && MessageSpacing in s && s[MessageSpacing].Number?
       && ShowTimestamps in s && s[ShowTimestamps].Flag? && ShowBadges in s && s[ShowBadges].Flag?
       && MessageCap in s && s[MessageCap].Number? && BgOdd in s && s[BgOdd].Text?
       && BgEven in s && s[BgEven].Text? && EmoteProviders in s && s[EmoteProviders].Providers?
    then
      var on := s[EmoteProviders].on;
      Some(Form(s[FontSize].n, s[MessageSpacing].n, s[ShowTimestamps].b, s[ShowBadges].b,
                s[MessageCap].n, s[BgOdd].s, s[BgEven].s,
                Checked(on, "twitch"), Checked(on, "7tv"), Checked(on, "bttv"), Checked(on, "ffz")))
    else None
  }

  /** With nothing stored the form shows the defaults. */
  lemma FreshFormShowsDefaults()
    ensures FillForm(LoadSettings(None)) == Some(Form(13, 2, true, true, 500, "#0e0e10", "#111114", true, true, true, true))
  {
  }

  /** Loading saved settings gives back exactly what was saved, with the
    default `chatWidth` added. */
  lemma LoadSaved(f: Form)
    ensures LoadSettings(Some(ReadSettings(f))) == ReadSettings(f)[ChatWidth := Null]
  {
    var saved := ReadSettings(f);
    var loaded := LoadSettings(Some(saved));
    assert loaded.Keys == saved[ChatWidth := Null].Keys;
  }

  /** Saving the form and loading it back shows the same form, and the
    unsaved `chatWidth` keeps its default. */
  lemma SaveLoadRoundTrip(f: Form)
    ensures FillForm(LoadSettings(Some(ReadSettings(f)))) == Some(f)
    ensures LoadSettings(Some(ReadSettings(f)))[ChatWidth] == Null
  {
    LoadSaved(f);
    FillSaved(f);
  }

  /** The form reads every field back from the saved settings. */
  lemma FillSaved(f: Form)
    ensures FillForm(ReadSettings(f)[ChatWidth := Null]) == Some(f)
  {
    var m := ReadSettings(f)[ChatWidth := Null];
    var on := map["twitch" := f.twitch, "7tv" := f.sevenTv, "bttv" := f.bttv, "ffz" := f.ffz];
    assert m[EmoteProviders] == Providers(on);
    ProviderBoxes(f.twitch, f.sevenTv, f.bttv, f.ffz);
  }

  /** Each provider checkbox shows its own switch. */
  lemma ProviderBoxes(twitch: bool, sevenTv: bool, bttv: bool, ffz: bool)
    ensures var on := map["twitch" := twitch, "7tv" := sevenTv, "bttv" := bttv, "ffz" := ffz];
      && Checked(on, "twitch") == twitch && Checked(on, "7tv") == sevenTv
      && Checked(on, "bttv") == bttv && Checked(on, "ffz") == ffz
  {
  }

  /** The merge is shallow: a stored provider object replaces the default
    one whole, so a provider it lacks shows unchecked rather than falling
    back to its default. */
  lemma ProvidersMergeShallow()
    ensures var stored := map[EmoteProviders := Providers(map["twitch" := false])];
      var loaded := LoadSettings(Some(stored));
      loaded[EmoteProviders] == Providers(map["twitch" := false])
      && !Checked(loaded[EmoteProviders].on, "7tv")
  {
  }
}
