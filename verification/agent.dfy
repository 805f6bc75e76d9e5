/** The node agent's edits of the Xray client lists. */
module Agent {
  import opened Text

  /** A JSON value as encoding/json decodes it into an interface. */
  datatype Json =
    | Null
    | Bool(flag: bool)
    | Number(value: real)
    | Str(text: string)
    | Arr(items: seq<Json>)
    | Obj(fields: map<string, Json>)

  datatype EditError = ValueRequired | ReadFailed | NoInbounds | InboundNotFound | WriteFailed | ReloadFailed

  /** What the operating system does during one edit: the write and the reload may each fail. */
  datatype Io = Io(writeOk: bool, leftByFailedWrite: Option<Json>, reloadOk: bool)

  /** The client object has the string value under the field. */
  predicate Matches(c: Json, field: string, value: string) {
    c.Obj? && field in c.fields && c.fields[field] == Str(value)
  }

  predicate HasTag(inbound: Json, tag: string) {
    Matches(inbound, "tag", tag)
  }

  predicate HasInbounds(cfg: Json) {
    cfg.Obj? && "inbounds" in cfg.fields && cfg.fields["inbounds"].Arr?
  }

  function Inbounds(cfg: Json): seq<Json>
    requires HasInbounds(cfg)
  {
    cfg.fields["inbounds"].items
  }

  /** The position of the first inbound with the tag, or the number of inbounds. */
  function InboundIndex(inbounds: seq<Json>, tag: string): (i: nat)
    ensures i <= |inbounds|
    ensures i < |inbounds| ==> HasTag(inbounds[i], tag)
    ensures forall k :: 0 <= k < i ==> !HasTag(inbounds[k], tag)
  {
    if inbounds == [] || HasTag(inbounds[0], tag) then 0 else 1 + InboundIndex(inbounds[1..], tag)
  }

  predicate Located(cfg: Json, tag: string) {
    HasInbounds(cfg) && InboundIndex(Inbounds(cfg), tag) < |Inbounds(cfg)|
  }

  /** The settings of an inbound; a missing or odd value counts as an empty object. */
  function Settings(inbound: Json): (s: Json)
    requires inbound.Obj?
    ensures s.Obj?
  {
    if "settings" in inbound.fields && inbound.fields["settings"].Obj? then inbound.fields["settings"]
    else Obj(map[])
  }

  function ClientList(settings: Json): seq<Json>
    requires settings.Obj?
  {
    if "clients" in settings.fields && settings.fields["clients"].Arr? then settings.fields["clients"].items
    else []
  }

  /** The clients of the first inbound with the tag. */
  function Clients(cfg: Json, tag: string): seq<Json>
    requires Located(cfg, tag)
  {
    ClientList(Settings(Inbounds(cfg)[InboundIndex(Inbounds(cfg), tag)]))
  }

  ghost predicate HasClient(clients: seq<Json>, field: string, value: string) {
    exists c :: c in clients && Matches(c, field, value)
  }

  function Without(clients: seq<Json>, field: string, value: string): seq<Json> {
    if clients == [] then []
    else
      Without(clients[..|clients| - 1], field, value)
      + if Matches(clients[|clients| - 1], field, value) then [] else [clients[|clients| - 1]]
  }

  /** The client list after adding (once) or removing the clients with the value. */
  ghost function EditedList(clients: seq<Json>, field: string, value: string, add: bool, newClient: Json): seq<Json> {
    if !add then Without(clients, field, value)
    else if HasClient(clients, field, value) then clients
    else clients + [newClient]
  }

  /** The configuration with another client list in the first inbound with the tag. */
  function WithClients(cfg: Json, tag: string, clients: seq<Json>): Json
    requires Located(cfg, tag)
  {
    var i := InboundIndex(Inbounds(cfg), tag);
    var inbound := Inbounds(cfg)[i];
    var settings := Obj(Settings(inbound).fields["clients" := Arr(clients)]);
    var changed := Obj(inbound.fields["settings" := settings]);
    Obj(cfg.fields["inbounds" := Arr(Inbounds(cfg)[i := changed])])
  }

  /** The whole effect of one edit on the configuration. */
  ghost function Edited(cfg: Json, tag: string, field: string, value: string, add: bool, newClient: Json): Json
    requires Located(cfg, tag)
  {
    WithClients(cfg, tag, EditedList(Clients(cfg, tag), field, value, add, newClient))
  }

  // Client lists behave as sets

  lemma {:induction false} WithoutMeans(clients: seq<Json>, field: string, value: string)
    ensures forall c :: c in Without(clients, field, value) <==> c in clients && !Matches(c, field, value)
    ensures !HasClient(clients, field, value) ==> Without(clients, field, value) == clients
  {
    if clients != [] {
      var init, last := clients[..|clients| - 1], clients[|clients| - 1];
      WithoutMeans(init, field, value);
      assert clients == init + [last];
      assert !HasClient(clients, field, value) ==> !HasClient(init, field, value);
    }
  }

  /** Adding and removing act on the set of values under the field, and on nothing else. */
  lemma EditIsSetEdit(clients: seq<Json>, field: string, value: string, add: bool, newClient: Json, other: string)
    requires add ==> Matches(newClient, field, value)
    ensures HasClient(EditedList(clients, field, value, add, newClient), field, other)
            <==> if add then HasClient(clients, field, other) || other == value
                 else HasClient(clients, field, other) && other != value
  {
    var edited := EditedList(clients, field, value, add, newClient);
    WithoutMeans(clients, field, value);
    if HasClient(edited, field, other) {
      var c :| c in edited && Matches(c, field, other);
      assert c in clients || c == newClient;
    }
    if HasClient(clients, field, other) && (add || other != value) {
      var c :| c in clients && Matches(c, field, other);
      assert c in edited;
    }
    if add && other == value && !HasClient(clients, field, value) {
      assert newClient in edited;
    }
  }

  /** Removing a client that was not there before it was added gives back the list, in order. */
  lemma RemoveUndoesAdd(clients: seq<Json>, field: string, value: string, newClient: Json)
    requires Matches(newClient, field, value) && !HasClient(clients, field, value)
    ensures var added := EditedList(clients, field, value, true, newClient);
            EditedList(added, field, value, false, newClient) == clients
  {
    WithoutMeans(clients, field, value);
    var added := clients + [newClient];
    assert added[..|added| - 1] == clients;
  }

  /** Repeating an edit changes nothing: retried requests are harmless. */
  lemma EditTwice(clients: seq<Json>, field: string, value: string, add: bool, newClient: Json)
    requires add ==> Matches(newClient, field, value)
    ensures var once := EditedList(clients, field, value, add, newClient);
            EditedList(once, field, value, add, newClient) == once
  {
    EditIsSetEdit(clients, field, value, add, newClient, value);
    WithoutMeans(EditedList(clients, field, value, add, newClient), field, value);
  }

  /** An edit replaces the client list of its own inbound and leaves every other inbound alone. */
  lemma EditFrame(cfg: Json, tag: string, clients: seq<Json>, other: string)
    requires Located(cfg, tag)
    ensures var cfg' := WithClients(cfg, tag, clients);
            && Located(cfg', tag) && Clients(cfg', tag) == clients
            && (Located(cfg', other) <==> Located(cfg, other))
            && (other != tag && Located(cfg, other) ==> Clients(cfg', other) == Clients(cfg, other))
            && cfg'.fields - {"inbounds"} == cfg.fields - {"inbounds"}
  {
    var i := InboundIndex(Inbounds(cfg), tag);
    var cfg' := WithClients(cfg, tag, clients);
    var old', new' := Inbounds(cfg), Inbounds(cfg');
    assert forall k, t :: 0 <= k < |old'| ==> (HasTag(old'[k], t) <==> HasTag(new'[k], t));
    SameIndex(old', new', tag);
    SameIndex(old', new', other);
    var j := InboundIndex(old', other);
    if other != tag && j < |old'| {
      assert new'[j] == old'[j];
    }
  }

  /** The items of an array under a key of an object, none if there is no such array. */
  function ItemsUnder(o: Json, key: string): seq<Json> {
    if o.Obj? && key in o.fields && o.fields[key].Arr? then o.fields[key].items else []
  }

  function FieldsUnder(o: Json, key: string): map<string, Json> {
    if o.Obj? && key in o.fields && o.fields[key].Obj? then o.fields[key].fields else map[]
  }

  /**
   * From cfg to cfg' nothing changes but the clients in the settings of inbound i: every other field of the
   * configuration, every other inbound, and every other field of the inbound and of its settings stays.
   */
  predicate OnlyClientsChange(cfg: Json, cfg': Json, i: nat) {
    && cfg.Obj? && cfg'.Obj? && cfg'.fields - {"inbounds"} == cfg.fields - {"inbounds"}
    && var before, after := ItemsUnder(cfg, "inbounds"), ItemsUnder(cfg', "inbounds");
       && i < |before| == |after| && (forall k :: 0 <= k < |before| && k != i ==> after[k] == before[k])
       && before[i].Obj? && after[i].Obj? && after[i].fields - {"settings"} == before[i].fields - {"settings"}
       && FieldsUnder(after[i], "settings") - {"clients"} == FieldsUnder(before[i], "settings") - {"clients"}
  }

  /** The clients in the settings of inbound i. */
  function ClientsAt(cfg: Json, i: nat): seq<Json>
    requires i < |ItemsUnder(cfg, "inbounds")|
  {
    ItemsUnder(Obj(FieldsUnder(ItemsUnder(cfg, "inbounds")[i], "settings")), "clients")
  }

  lemma EditChangesClients(cfg: Json, tag: string, clients: seq<Json>)
    requires Located(cfg, tag)
    ensures var cfg', i := WithClients(cfg, tag, clients), InboundIndex(Inbounds(cfg), tag);
            && OnlyClientsChange(cfg, cfg', i) && ClientsAt(cfg', i) == clients
            && ClientsAt(cfg, i) == Clients(cfg, tag)
  {
  }

  /** Removing goes through the list from front to back and drops the matching clients. */
  lemma {:induction false} WithoutConcat(a: seq<Json>, b: seq<Json>, field: string, value: string)
    ensures Without(a + b, field, value) == Without(a, field, value) + Without(b, field, value)
  {
    if b == [] {
      assert a + b == a;
    } else {
      WithoutConcat(a, b[..|b| - 1], field, value);
      assert (a + b)[..|a + b| - 1] == a + b[..|b| - 1];
    }
  }

  lemma {:induction false} SameIndex(a: seq<Json>, b: seq<Json>, tag: string)
    requires |a| == |b|
    requires forall k :: 0 <= k < |a| ==> (HasTag(a[k], tag) <==> HasTag(b[k], tag))
    ensures InboundIndex(a, tag) == InboundIndex(b, tag)
  {
    var i, j := InboundIndex(a, tag), InboundIndex(b, tag);
  }

  /**
   * What an edit writes: in the first inbound with the tag, and nowhere else, the client is added behind the
   * others unless one of them has the value, or those with the value are dropped.
   */
  ghost predicate WrittenEdit(
    cfg: Json, cfg': Json, tag: string, field: string, value: string, add: bool, newClient: Json)
  {
    exists i: nat ::
      && OnlyClientsChange(cfg, cfg', i)
      && Matches(ItemsUnder(cfg, "inbounds")[i], "tag", tag)
      && (forall k :: 0 <= k < i ==> !Matches(ItemsUnder(cfg, "inbounds")[k], "tag", tag))
      && var before, after := ClientsAt(cfg, i), ClientsAt(cfg', i);
         if !add then after == Without(before, field, value)
         else if exists c :: c in before && Matches(c, field, value) then after == before
         else after == before + [newClient]
  }

  lemma EditMeans(cfg: Json, tag: string, field: string, value: string, add: bool, newClient: Json)
    requires Located(cfg, tag)
    ensures WrittenEdit(cfg, Edited(cfg, tag, field, value, add, newClient), tag, field, value, add, newClient)
  {
    var i := InboundIndex(Inbounds(cfg), tag);
    EditChangesClients(cfg, tag, EditedList(Clients(cfg, tag), field, value, add, newClient));
    hide OnlyClientsChange, ClientsAt, WithClients;
    assert ItemsUnder(cfg, "inbounds") == Inbounds(cfg);
    assert OnlyClientsChange(cfg, Edited(cfg, tag, field, value, add, newClient), i);
  }

  /** The agent process and the configuration file it edits; None stands for an unreadable file. */
  class XrayAgent {
    const xrayTag: string
    const xrayFlow: string
    const xraySSTag: string
    const xrayTrojanTag: string
    var xrayConfig: Option<Json>
    var loaded: Option<Json>

    constructor (xrayTag: string, xrayFlow: string, xraySSTag: string, xrayTrojanTag: string, config: Option<Json>)
      ensures xrayConfig == loaded == config
      ensures this.xrayTag == xrayTag && this.xrayFlow == xrayFlow
      ensures this.xraySSTag == xraySSTag && this.xrayTrojanTag == xrayTrojanTag
    {
      this.xrayTag, this.xrayFlow, this.xraySSTag, this.xrayTrojanTag := xrayTag, xrayFlow, xraySSTag, xrayTrojanTag;
      xrayConfig, loaded := config, config;
    }

    /** inboundSettings: the position of the inbound, or why there is none. */
    method InboundSettings(cfg: Json, tag: string) returns (i: nat, err: Option<EditError>)
      ensures err == if !HasInbounds(cfg) then Some(NoInbounds)
                     else if !Located(cfg, tag) then Some(InboundNotFound) else None
      ensures err.None? ==> i == InboundIndex(Inbounds(cfg), tag)
    {
      i := 0;
      if !HasInbounds(cfg) {
        return i, Some(NoInbounds);
      }
      var inbounds := Inbounds(cfg);
      while i < |inbounds|
        invariant 0 <= i <= |inbounds|
        invariant forall k :: 0 <= k < i ==> !HasTag(inbounds[k], tag)
      {
        if HasTag(inbounds[i], tag) {
          return i, None;
        }
        i := i + 1;
      }
      err := Some(InboundNotFound);
    }

    /** The filter loop of editXrayClients. */
    method Filter(clients: seq<Json>, matchField: string, matchValue: string, add: bool, newClient: Json)
      returns (filtered: seq<Json>)
      ensures filtered == EditedList(clients, matchField, matchValue, add, newClient)
    {
      filtered := [];
      var present := false;
      for i := 0 to |clients|
        invariant present <==> HasClient(clients[..i], matchField, matchValue)
        invariant filtered == if add then clients[..i] else Without(clients[..i], matchField, matchValue)
      {
        var c := clients[i];
        var next := clients[..i + 1];
        assert next[..|next| - 1] == clients[..i] && next == clients[..i] + [c];
        if Matches(c, matchField, matchValue) {
          present := true;
          if !add {
            continue;
          }
        }
        filtered := filtered + [c];
      }
      assert clients[..|clients|] == clients;
      if add && !present {
        filtered := filtered + [newClient];
      }
    }

    /**
     * editXrayClients: edits the file and reloads Xray. A failed reload is reported although the file
     * already holds the edit.
     */
    method EditXrayClients(tag: string, matchField: string, matchValue: string, add: bool, newClient: Json, io: Io)
      returns (err: Option<EditError>)
      modifies this
      ensures err == (if matchValue == "" then Some(ValueRequired)
                      else match old(xrayConfig)
                        case None => Some(ReadFailed)
                        case Some(cfg) =>
                          if !cfg.Obj? && !cfg.Null? then Some(ReadFailed)
                          else if !HasInbounds(cfg) then Some(NoInbounds)
                          else if !Located(cfg, tag) then Some(InboundNotFound)
                          else if !io.writeOk then Some(WriteFailed)
                          else if !io.reloadOk then Some(ReloadFailed) else None)
      ensures err.None? || err == Some(ReloadFailed) ==>
                && xrayConfig == Some(Edited(old(xrayConfig).value, tag, matchField, matchValue, add, newClient))
                && WrittenEdit(old(xrayConfig).value, xrayConfig.value, tag, matchField, matchValue, add, newClient)
      ensures err == Some(WriteFailed) ==> xrayConfig == io.leftByFailedWrite
      ensures err.Some? && err.value !in {ReloadFailed, WriteFailed} ==> xrayConfig == old(xrayConfig)
      ensures loaded == if err.None? then xrayConfig else old(loaded)
    {
      if matchValue == "" {
        return Some(ValueRequired);
      }
      if xrayConfig.None? || !(xrayConfig.value.Obj? || xrayConfig.value.Null?) {
        return Some(ReadFailed);
      }
      var cfg := xrayConfig.value;
      var i, missing := InboundSettings(cfg, tag);
      if missing.Some? {
        return missing;
      }
      EditMeans(cfg, tag, matchField, matchValue, add, newClient);
      var clients := ClientList(Settings(Inbounds(cfg)[i]));
      var filtered := Filter(clients, matchField, matchValue, add, newClient);
      if !io.writeOk {
        xrayConfig := io.leftByFailedWrite;
        return Some(WriteFailed);
      }
      xrayConfig := Some(WithClients(cfg, tag, filtered));
      if !io.reloadOk {
        return Some(ReloadFailed);
      }
      loaded := xrayConfig;
      return None;
    }

    /** The first inbound with the tag lists a client with the value. */
    ghost predicate Lists(tag: string, field: string, value: string)
      reads this
    {
      xrayConfig.Some? && Located(xrayConfig.value, tag) && HasClient(Clients(xrayConfig.value, tag), field, value)
    }

    /** editVLESS: a successful call adds or removes exactly this client on the VLESS inbound. */
    method EditVLESS(uuid: string, add: bool, io: Io) returns (err: Option<EditError>)
      modifies this
      ensures err.None? ==> forall w :: Lists(xrayTag, "id", w)
                                        <==> if w == uuid then add else old(Lists(xrayTag, "id", w))
      ensures err.None? ==>
                && old(xrayConfig).Some? && xrayConfig.Some?
                && exists c: Json ::
                     && c.Obj? && c.fields.Keys == {"id", "flow"}
                     && c.fields["id"] == Str(uuid) && c.fields["flow"] == Str(xrayFlow)
                     && WrittenEdit(old(xrayConfig).value, xrayConfig.value, xrayTag, "id", uuid, add, c)
    {
      hide WrittenEdit;
      var newClient := Obj(map["id" := Str(uuid), "flow" := Str(xrayFlow)]);
      err := EditXrayClients(xrayTag, "id", uuid, add, newClient, io);
      if err.None? {
        ListsAfterEdit(old(xrayConfig).value, xrayTag, "id", uuid, add, newClient);
      }
    }

    /** addSS and removeSS, by the email of the client on the Shadowsocks inbound. */
    method EditSS(email: string, password: string, add: bool, io: Io) returns (err: Option<EditError>)
      modifies this
      ensures err.None? ==> forall w :: Lists(xraySSTag, "email", w)
                                        <==> if w == email then add else old(Lists(xraySSTag, "email", w))
      ensures err.None? ==>
                && old(xrayConfig).Some? && xrayConfig.Some?
                && exists c: Json ::
                     && c.Obj? && c.fields.Keys == {"password", "email"}
                     && c.fields["password"] == Str(password) && c.fields["email"] == Str(email)
                     && WrittenEdit(old(xrayConfig).value, xrayConfig.value, xraySSTag, "email", email, add, c)
    {
      hide WrittenEdit;
      var newClient := Obj(map["password" := Str(password), "email" := Str(email)]);
      err := EditXrayClients(xraySSTag, "email", email, add, newClient, io);
      if err.None? {
        ListsAfterEdit(old(xrayConfig).value, xraySSTag, "email", email, add, newClient);
      }
    }

    /** addTrojan and removeTrojan, by the email of the client on the Trojan inbound. */
    method EditTrojan(email: string, password: string, add: bool, io: Io) returns (err: Option<EditError>)
      modifies this
      ensures err.None? ==> forall w :: Lists(xrayTrojanTag, "email", w)
                                        <==> if w == email then add else old(Lists(xrayTrojanTag, "email", w))
      ensures err.None? ==>
                && old(xrayConfig).Some? && xrayConfig.Some?
                && exists c: Json ::
                     && c.Obj? && c.fields.Keys == {"password", "email", "flow"}
                     && c.fields["password"] == Str(password) && c.fields["email"] == Str(email)
                     && c.fields["flow"] == Str(xrayFlow)
                     && WrittenEdit(old(xrayConfig).value, xrayConfig.value, xrayTrojanTag, "email", email, add, c)
    {
      hide WrittenEdit;
      var newClient := Obj(map["password" := Str(password), "email" := Str(email), "flow" := Str(xrayFlow)]);
      err := EditXrayClients(xrayTrojanTag, "email", email, add, newClient, io);
      if err.None? {
        ListsAfterEdit(old(xrayConfig).value, xrayTrojanTag, "email", email, add, newClient);
      }
    }
  }

  /** After an edit the inbound lists exactly what the set edit says. */
  lemma ListsAfterEdit(cfg: Json, tag: string, field: string, value: string, add: bool, newClient: Json)
    requires Located(cfg, tag) && Matches(newClient, field, value)
    ensures var cfg' := Edited(cfg, tag, field, value, add, newClient);
            && Located(cfg', tag)
            && forall w :: HasClient(Clients(cfg', tag), field, w)
                           <==> if w == value then add else HasClient(Clients(cfg, tag), field, w)
  {
    EditFrame(cfg, tag, EditedList(Clients(cfg, tag), field, value, add, newClient), tag);
    forall w ensures HasClient(EditedList(Clients(cfg, tag), field, value, add, newClient), field, w)
                     <==> if w == value then add else HasClient(Clients(cfg, tag), field, w) {
      EditIsSetEdit(Clients(cfg, tag), field, value, add, newClient, w);
    }
  }
}
