/** The node's configuration as the set of installed clients that the protocol speaks of. */
module VpnNode {
  import opened Agent
  import opened Subscriptions
  import opened VpnProtocol

  /** Where the clients of a protocol are listed, and how a credential is written there. */
  datatype Names = Names(tag: string, field: string, text: nat -> string)

  ghost predicate Distinct(n: Names) {
    forall c, d :: n.text(c) == n.text(d) ==> c == d
  }

  /** The configuration lists exactly the clients installed for the protocol on the server. */
  ghost predicate Shows(cfg: Json, n: Names, installed: set<(nat, Protocol, nat)>, server: nat, protocol: Protocol) {
    Located(cfg, n.tag)
    && forall c: nat :: HasClient(Clients(cfg, n.tag), n.field, n.text(c)) <==> (server, protocol, c) in installed
  }

  /** The configuration after an edit for one credential. */
  ghost function After(cfg: Json, n: Names, cred: nat, add: bool, client: Json): Json
    requires Located(cfg, n.tag)
  {
    Edited(cfg, n.tag, n.field, n.text(cred), add, client)
  }

  lemma EditShows(cfg: Json, n: Names, installed: set<(nat, Protocol, nat)>, server: nat, protocol: Protocol,
                  cred: nat, add: bool, client: Json)
    requires Distinct(n) && Shows(cfg, n, installed, server, protocol)
    requires Matches(client, n.field, n.text(cred))
    ensures Shows(After(cfg, n, cred, add, client), n,
                  if add then installed + {(server, protocol, cred)} else installed - {(server, protocol, cred)},
                  server, protocol)
  {
    ListsAfterEdit(cfg, n.tag, n.field, n.text(cred), add, client);
  }

  /** A call that succeeds on the node is the AddOk step: the edited file lists exactly what is installed then. */
  lemma AddShows(w: World, pid: nat, cfg: Json, n: Names, client: Json)
    requires Enabled(w, AddOk(pid)) && Distinct(n)
    requires Shows(cfg, n, w.installed, w.procs[pid].server, w.procs[pid].protocol)
    requires Matches(client, n.field, n.text(Cred(w.procs[pid].m).value))
    ensures var p := w.procs[pid];
            Shows(After(cfg, n, Cred(p.m).value, true, client), n, Do(w, AddOk(pid)).installed, p.server, p.protocol)
  {
    hide Shows, After, Matches;
    var p := w.procs[pid];
    EditShows(cfg, n, w.installed, p.server, p.protocol, Cred(p.m).value, true, client);
  }

  /**
   * A call whose reload fails is the AddFailed step: the running process still shows what was installed. Once
   * the file that the call left behind is loaded, that is the LateAdd step.
   */
  lemma FailedReloadShows(w: World, pid: nat, cfg: Json, n: Names, client: Json)
    requires Enabled(w, AddFailed(pid)) && Distinct(n)
    requires Shows(cfg, n, w.installed, w.procs[pid].server, w.procs[pid].protocol)
    requires Matches(client, n.field, n.text(Cred(w.procs[pid].m).value))
    ensures var p, v := w.procs[pid], Do(w, AddFailed(pid));
            && Shows(cfg, n, v.installed, p.server, p.protocol)
            && Enabled(v, LateAdd(pid))
            && Shows(After(cfg, n, Cred(p.m).value, true, client), n, Do(v, LateAdd(pid)).installed,
                     p.server, p.protocol)
  {
    hide Shows, After, Matches;
    var p := w.procs[pid];
    EditShows(cfg, n, w.installed, p.server, p.protocol, Cred(p.m).value, true, client);
  }

  /** A removal that succeeds on the node is the RemoveOk step. */
  lemma RemoveShows(w: World, pid: nat, cfg: Json, n: Names, client: Json)
    requires Enabled(w, RemoveOk(pid)) && Distinct(n)
    requires Shows(cfg, n, w.installed, w.procs[pid].server, w.procs[pid].protocol)
    requires Matches(client, n.field, n.text(w.procs[pid].cred.value))
    ensures var p := w.procs[pid];
            Shows(After(cfg, n, p.cred.value, false, client), n, Do(w, RemoveOk(pid)).installed, p.server, p.protocol)
  {
    hide Shows, After, Matches;
    EditShows(cfg, n, w.installed, w.procs[pid].server, w.procs[pid].protocol, w.procs[pid].cred.value, false, client);
  }

  /** In every reachable world, a node that shows what is installed lists the client of each of its active keys. */
  lemma ActiveKeysListed(w: World, steps: seq<Step>, i: nat, cfg: Json, n: Names)
    requires Initial(w) && Legal(w, steps) && i < |Run(w, steps).db.keys| && Run(w, steps).db.keys[i].active
    requires Run(w, steps).db.keys[i].config < |Run(w, steps).db.configs|
    requires var v := Run(w, steps);
             var sub := v.db.configs[v.db.keys[i].config].sub;
             sub < |v.db.subs| && Shows(cfg, n, v.installed, v.db.keys[i].server, v.db.subs[sub].protocol)
    ensures var cred := Cred(Run(w, steps).db.keys[i].material);
            cred.Some? && HasClient(Clients(cfg, n.tag), n.field, n.text(cred.value))
  {
    ReachableSafety(w, steps, i);
  }
}
