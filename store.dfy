/**
 * The per-chat settings (`data`, `load_data`, `save_data`, `get_chat_cfg`)
 * and the three owner commands `.chat`, `.setrole` and `.role`. The store
 * keeps, under the decimal text of each chat id, the persona sent to the
 * generator and whether the bot answers freely in that chat. The JSON file
 * is not read or written: `persisted` is the value `save_data` last wrote,
 * and `load_data` takes the parsed file as input.
 */
module Store {
  import opened Wrappers
  import opened Text
  import opened Json
  import Config

  // Chat keys: `str(chat_id)`.

  function DigitChar(d: nat): char
    requires d < 10
  {
    ('0' as int + d) as char
  }

  predicate IsDigit(c: char) { '0' <= c <= '9' }

  /** `str(n)` for a non-negative integer: decimal digits without leading zeros. */
  function NatToDecimal(n: nat): (s: string)
    ensures s != [] && forall i :: 0 <= i < |s| ==> IsDigit(s[i])
    ensures s[0] == '0' ==> n == 0
    decreases n
  {
    if n < 10 then [DigitChar(n)] else NatToDecimal(n / 10) + [DigitChar(n % 10)]
  }

  /** The value of a string of decimal digits. */
  function DigitsValue(s: string): nat
    requires forall i :: 0 <= i < |s| ==> IsDigit(s[i])
  {
    if s == [] then 0
    else
      assert IsDigit(s[|s| - 1]);
      DigitsValue(s[..|s| - 1]) * 10 + (s[|s| - 1] as int - '0' as int)
  }

  /** Reading the digits back gives the number. */
  lemma {:induction false} DecimalRoundTrip(n: nat)
    ensures DigitsValue(NatToDecimal(n)) == n
    decreases n
  {
    if n >= 10 {
      var s := NatToDecimal(n);
      assert s[..|s| - 1] == NatToDecimal(n / 10);
      DecimalRoundTrip(n / 10);
    }
  }

  /** `str(chat_id)`: the key a chat's settings are stored under. */
  function ChatKey(chatId: int): (key: string)
    ensures key != [] && (chatId < 0 <==> key[0] == '-')
  {
    if chatId < 0 then "-" + NatToDecimal(-chatId) else NatToDecimal(chatId)
  }

  /** Distinct chats never share settings: `str` is injective on integers. */
  lemma ChatKeyInjective(a: int, b: int)
    requires ChatKey(a) == ChatKey(b)
    ensures a == b
  {
    if a < 0 {
      NegativeKeyDigits(a);
      NegativeKeyDigits(b);
      DecimalRoundTrip(-a);
      DecimalRoundTrip(-b);
    } else {
      DecimalRoundTrip(a);
      DecimalRoundTrip(b);
    }
  }

  lemma NegativeKeyDigits(n: int)
    requires n < 0
    ensures ChatKey(n)[1..] == NatToDecimal(-n)
  {
  }

  // Settings of one chat.

  /** `{"role": ..., "enabled": ...}`. */
  datatype Cfg = Cfg(role: string, enabled: bool)

  /** The entry `get_chat_cfg` creates for a chat it has not seen. */
  const DefaultCfg := Cfg(Config.DefaultRole, false)

  /** `cfg.get("role") or DEFAULT_ROLE`. */
  function RoleOrDefault(role: string): (r: string)
    ensures r != []
    ensures role != [] ==> r == role
    ensures role == [] ==> r == Config.DefaultRole
  {
    if role == [] then Config.DefaultRole else role
  }

  /**
   * The chats after `get_chat_cfg(chat_id)`: the default entry is added
   * under `key` when it is missing, and nothing else changes.
   */
  function WithDefault(chats: map<string, Cfg>, key: string): (r: map<string, Cfg>)
    ensures r.Keys == chats.Keys + {key}
    ensures forall k :: k in chats ==> r[k] == chats[k]
    ensures key !in chats ==> r[key] == DefaultCfg
  {
    if key in chats then chats else chats[key := DefaultCfg]
  }

  // The stored file: `{"chats": {key: {"role": ..., "enabled": ...}}}`.

  function EncodeCfg(c: Cfg): Json {
    JObject([("role", JString(c.role)), ("enabled", JBool(c.enabled))])
  }

  /**
   * How an entry of the loaded file is read back: a string role (else no
   * role) and a boolean `enabled` (else disabled).
   */
  function CfgOf(v: Json): (c: Cfg)
    ensures !v.JObject? ==> c == Cfg([], false)
    ensures c.role != [] ==> v.JObject? && Get(v.fields, "role") == Some(JString(c.role))
    ensures c.enabled <==> v.JObject? && Get(v.fields, "enabled") == Some(JBool(true))
  {
    var fields := if v.JObject? then v.fields else [];
    var role := match Get(fields, "role") case Some(JString(r)) => r case _ => [];
    var enabled := match Get(fields, "enabled") case Some(JBool(b)) => b case _ => false;
    Cfg(role, enabled)
  }

  lemma CfgRoundTrip(c: Cfg)
    ensures CfgOf(EncodeCfg(c)) == c
  {
    var fields := EncodeCfg(c).fields;
    assert Get(fields, "role") == Some(JString(c.role));
    assert Get(fields, "enabled") == Some(JBool(c.enabled));
  }

  /** The chats of a loaded `chats` object; a later duplicate key wins, as in `json.load`. */
  function DecodeChats(entries: seq<(string, Json)>): (m: map<string, Cfg>)
    ensures m.Keys == set i | 0 <= i < |entries| :: entries[i].0
  {
    if entries == [] then map[]
    else
      var last := entries[|entries| - 1];
      var m := DecodeChats(entries[..|entries| - 1]);
      assert forall i :: 0 <= i < |entries| - 1 ==> entries[..|entries| - 1][i] == entries[i];
      m[last.0 := CfgOf(last.1)]
  }

  /** The items of the `chats` dict as `json.dump` writes them (in some order). */
  ghost function EncodeChats(chats: map<string, Cfg>): (r: seq<(string, Json)>)
    ensures |r| == |chats|
    ensures forall i :: 0 <= i < |r| ==> r[i].0 in chats && r[i].1 == EncodeCfg(chats[r[i].0])
    decreases |chats|
  {
    if chats == map[] then []
    else
      var k :| k in chats;
      EncodeChats(chats - {k}) + [(k, EncodeCfg(chats[k]))]
  }

  /** A later entry overrides the earlier ones with its key. */
  lemma DecodeLastEntry(entries: seq<(string, Json)>, key: string, v: Json)
    ensures DecodeChats(entries + [(key, v)]) == DecodeChats(entries)[key := CfgOf(v)]
  {
    assert (entries + [(key, v)])[..|entries|] == entries;
  }

  lemma {:induction false} ChatsRoundTrip(chats: map<string, Cfg>)
    ensures DecodeChats(EncodeChats(chats)) == chats
    decreases |chats|
  {
    if chats != map[] {
      var k :| k in chats && EncodeChats(chats) == EncodeChats(chats - {k}) + [(k, EncodeCfg(chats[k]))];
      DecodeLastEntry(EncodeChats(chats - {k}), k, EncodeCfg(chats[k]));
      ChatsRoundTrip(chats - {k});
      CfgRoundTrip(chats[k]);
      RemoveThenRestore(chats, k);
    }
  }

  lemma RemoveThenRestore(chats: map<string, Cfg>, k: string)
    requires k in chats
    ensures (chats - {k})[k := chats[k]] == chats
  {
  }

  /** The whole file `save_data` writes. */
  ghost function EncodeData(chats: map<string, Cfg>): (r: Json)
    ensures r.JObject? && Get(r.fields, "chats") == Some(JObject(EncodeChats(chats)))
  {
    JObject([("chats", JObject(EncodeChats(chats)))])
  }

  /** What `load_data` found: no file, a file `json.load` rejects, or a parsed value. */
  datatype StoredFile = Missing | Unreadable | Contents(value: Json)

  /**
   * The chats after `load_data`: a missing file keeps the current ones; an
   * unreadable file, or one that is not an object whose `chats` is an
   * object, resets them to none.
   */
  function LoadedChats(file: StoredFile, current: map<string, Cfg>): (r: map<string, Cfg>)
    ensures file.Missing? ==> r == current
    ensures file.Unreadable? ==> r == map[]
  {
    match file
    case Missing => current
    case Unreadable => map[]
    case Contents(js) =>
      if js.JObject? then
        match Get(js.fields, "chats")
        case Some(JObject(entries)) => DecodeChats(entries)
        case _ => map[]
      else map[]
  }

  /** A file that `load_data` rejects by its shape leaves no chats. */
  lemma LoadRejectsBadShape(js: Json, current: map<string, Cfg>)
    requires !js.JObject? || match Get(js.fields, "chats") case Some(JObject(_)) => false case _ => true
    ensures LoadedChats(Contents(js), current) == map[]
  {
  }

  /** Loading what `save_data` wrote restores exactly the saved chats. */
  lemma SaveLoadRoundTrip(chats: map<string, Cfg>, current: map<string, Cfg>)
    ensures LoadedChats(Contents(EncodeData(chats)), current) == chats
  {
    assert Get(EncodeData(chats).fields, "chats") == Some(JObject(EncodeChats(chats)));
    ChatsRoundTrip(chats);
  }

  // Command arguments.

  /** End of the run of non-whitespace starting at `p`. */
  function WordEnd(s: string, p: nat): (e: nat)
    requires p <= |s|
    ensures p <= e <= |s|
    ensures forall i :: p <= i < e ==> !IsSpace(s[i])
    ensures e == |s| || IsSpace(s[e])
    decreases |s| - p
  {
    if p < |s| && !IsSpace(s[p]) then WordEnd(s, p + 1) else p
  }

  /**
   * `parts = text.split(maxsplit=1)` followed by `parts[1].strip()`, or ""
   * when there is no second part: the text after the command word, stripped.
   */
  function CommandArg(text: string): (r: string)
    ensures IsTrimmed(r) && |r| <= |text|
  {
    var t := TrimStart(text);
    Trim(t[WordEnd(t, 0)..])
  }

  /** `.chat   on ` and the like: whatever surrounds the command word, the argument is the rest, stripped. */
  lemma CommandArgOfWords(lead: string, word: string, sep: string, arg: string)
    requires AllSpace(lead) && AllSpace(sep) && sep != []
    requires word != [] && forall i :: 0 <= i < |word| ==> !IsSpace(word[i])
    ensures CommandArg(lead + word + sep + arg) == Trim(arg)
  {
    var rest := word + (sep + arg);
    assert lead + word + sep + arg == lead + rest;
    assert rest[0] == word[0];
    TrimStartSkips(lead, rest);
    assert rest[|word|] == sep[0];
    WordEndOfWord(rest, |word|);
    assert rest[|word|..] == sep + arg;
    TrimStartAfterSpace(sep, arg);
  }

  /** A command with no text after its word has the empty argument. */
  lemma CommandArgOfWordOnly(lead: string, word: string, trail: string)
    requires AllSpace(lead) && AllSpace(trail)
    requires word != [] && forall i :: 0 <= i < |word| ==> !IsSpace(word[i])
    ensures CommandArg(lead + word + trail) == []
  {
    var rest := word + trail;
    assert lead + word + trail == lead + rest;
    assert rest[0] == word[0];
    TrimStartSkips(lead, rest);
    WordEndOfWord(rest, |word|);
    assert AllSpace(rest[|word|..]);
  }

  lemma WordEndOfWord(s: string, n: nat)
    requires n <= |s| && forall i :: 0 <= i < n ==> !IsSpace(s[i])
    requires n == |s| || IsSpace(s[n])
    ensures WordEnd(s, 0) == n
  {
  }

  function LowerAscii(c: char): char {
    if 'A' <= c <= 'Z' then (c as int + 32) as char else c
  }

  /**
   * The switch of `.chat`: `arg.lower()` is "on" or "off". Only 'O', 'N'
   * and 'F' lower to 'o', 'n' and 'f', so lowering ASCII letters decides
   * the same comparisons as `str.lower`.
   */
  function Switch(arg: string): (r: Option<bool>)
    ensures r == Some(true) <==> |arg| == 2 && (arg[0] == 'o' || arg[0] == 'O') && (arg[1] == 'n' || arg[1] == 'N')
    ensures r == Some(false) <==> |arg| == 3 && (arg[0] == 'o' || arg[0] == 'O') &&
                                  (arg[1] == 'f' || arg[1] == 'F') && (arg[2] == 'f' || arg[2] == 'F')
  {
    var lower := seq(|arg|, i requires 0 <= i < |arg| => LowerAscii(arg[i]));
    assert |lower| == 2 ==> (lower == "on" <==> lower[0] == 'o' && lower[1] == 'n');
    assert |lower| == 3 ==> (lower == "off" <==> lower[0] == 'o' && lower[1] == 'f' && lower[2] == 'f');
    if lower == "on" then Some(true)
    else if lower == "off" then Some(false)
    else None
  }

  /** The role `.setrole` stores: the stripped argument cut to 3000 characters, none when it is empty. */
  function StoredRole(arg: string): (r: Option<string>)
    ensures r.Some? <==> arg != []
    ensures r.Some? ==> r.value != [] && |r.value| <= 3000 && r.value <= arg
    ensures r.Some? && |arg| <= 3000 ==> r.value == arg
    ensures r.Some? && |arg| > 3000 ==> r.value == arg[..3000]
  {
    if arg == [] then None else Some(PyPrefix(arg, 3000))
  }

  const ChatUsage := "Pakai: .chat on atau .chat off"
  const SetRoleUsage := "Pakai: .setrole ..."

  /** `f"Role:\n\n{role}"`. */
  function RoleReply(role: string): (r: string)
    ensures |r| > 7 && r[..7] == "Role:\n\n"
    ensures role != [] ==> r[7..] == role
    ensures role == [] ==> r[7..] == Config.DefaultRole
  {
    "Role:\n\n" + RoleOrDefault(role)
  }

  /**
   * The global `data`: the settings of every chat seen so far, and the file
   * contents the last `save_data` wrote.
   */
  class ChatStore {
    var chats: map<string, Cfg>
    ghost var persisted: Option<Json>

    /** `data = {"chats": {}}`, before anything is saved. */
    constructor()
      ensures chats == map[] && persisted.None?
    {
      chats := map[];
      persisted := None;
    }

    /** `save_data()`: the file now holds the chats in memory. */
    method SaveData()
      modifies this
      ensures chats == old(chats) && persisted == Some(EncodeData(chats))
    {
      persisted := Some(EncodeData(chats));
    }

    /** `load_data()`. */
    method LoadData(file: StoredFile)
      modifies this
      ensures chats == LoadedChats(file, old(chats)) && persisted == old(persisted)
    {
      match file {
        case Missing =>
        case Unreadable =>
          chats := map[];
        case Contents(js) =>
          if js.JObject? && Get(js.fields, "chats").Some? && Get(js.fields, "chats").value.JObject? {
            chats := DecodeChats(Get(js.fields, "chats").value.fields);
          } else {
            chats := map[];
          }
      }
    }

    /** `get_chat_cfg(chat_id)`: adds and saves the default entry for an unseen chat. */
    method GetChatCfg(chatId: int) returns (cfg: Cfg)
      modifies this
      ensures chats == WithDefault(old(chats), ChatKey(chatId))
      ensures cfg == chats[ChatKey(chatId)]
      ensures persisted == if ChatKey(chatId) in old(chats) then old(persisted) else Some(EncodeData(chats))
    {
      var key := ChatKey(chatId);
      if key !in chats {
        chats := chats[key := DefaultCfg];
        SaveData();
      }
      cfg := chats[key];
    }

    /**
     * `.chat on|off`: the default entry is created first, even when the
     * argument is invalid; only "on" and "off" change `enabled`.
     */
    method ChatCmd(chatId: int, text: string) returns (reply: string)
      modifies this
      ensures var key := ChatKey(chatId);
              var seen := WithDefault(old(chats), key);
              match Switch(CommandArg(text))
              case None => chats == seen && reply == ChatUsage
              case Some(on) =>
                chats == seen[key := seen[key].(enabled := on)] &&
                reply == (if on then "AKTIF" else "MATI")
      ensures persisted == if ChatKey(chatId) in old(chats) && Switch(CommandArg(text)).None?
                           then old(persisted) else Some(EncodeData(chats))
    {
      var cfg := GetChatCfg(chatId);
      var key := ChatKey(chatId);
      match Switch(CommandArg(text)) {
        case None =>
          reply := ChatUsage;
        case Some(on) =>
          chats := chats[key := cfg.(enabled := on)];
          SaveData();
          reply := if on then "AKTIF" else "MATI";
      }
    }

    /** `.setrole <text>`: stores the stripped text, cut to 3000 characters, when it is not empty. */
    method SetRoleCmd(chatId: int, text: string) returns (reply: string)
      modifies this
      ensures var key := ChatKey(chatId);
              var seen := WithDefault(old(chats), key);
              match StoredRole(CommandArg(text))
              case None => chats == seen && reply == SetRoleUsage
              case Some(role) => chats == seen[key := seen[key].(role := role)] && reply == "Ok."
      ensures persisted == if ChatKey(chatId) in old(chats) && StoredRole(CommandArg(text)).None?
                           then old(persisted) else Some(EncodeData(chats))
    {
      var cfg := GetChatCfg(chatId);
      var key := ChatKey(chatId);
      match StoredRole(CommandArg(text)) {
        case None =>
          reply := SetRoleUsage;
        case Some(role) =>
          chats := chats[key := cfg.(role := role)];
          SaveData();
          reply := "Ok.";
      }
    }

    /** `.role`: shows the chat's role, or the default persona when it has none. */
    method RoleCmd(chatId: int) returns (reply: string)
      modifies this
      ensures chats == WithDefault(old(chats), ChatKey(chatId))
      ensures reply == RoleReply(chats[ChatKey(chatId)].role)
      ensures persisted == if ChatKey(chatId) in old(chats) then old(persisted) else Some(EncodeData(chats))
    {
      var cfg := GetChatCfg(chatId);
      reply := RoleReply(cfg.role);
    }
  }
}
