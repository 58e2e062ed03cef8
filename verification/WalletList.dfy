/** Adding wallets to the list, removing them, and finding them again. */
module WalletLists {
  import opened Prelude
  import opened HotWallets
  import opened States
  import opened Machine

  predicate DistinctAddresses(ws: seq<Wallet>) {
    forall i, j :: 0 <= i < j < |ws| ==> ws[i].address != ws[j].address
  }

  predicate WithinLimits(ws: seq<Wallet>) {
    forall i :: 0 <= i < |ws| ==> ws[i].Remaining() <= ws[i].Amount()
  }

  lemma {:induction false} RetainHolds(ws: seq<Wallet>, doomed: string)
    ensures forall w :: w in Retain(ws, doomed) <==> w in ws && w.address != doomed
  {
    if ws != [] {
      RetainHolds(ws[1..], doomed);
      assert forall w :: w in ws <==> w == ws[0] || w in ws[1..];
    }
  }

  lemma {:induction false} RetainKeepsDistinct(ws: seq<Wallet>, doomed: string)
    requires DistinctAddresses(ws)
    ensures DistinctAddresses(Retain(ws, doomed))
  {
    if ws != [] {
      var rest := Retain(ws[1..], doomed);
      RetainKeepsDistinct(ws[1..], doomed);
      RetainHolds(ws[1..], doomed);
      forall j | 0 <= j < |rest|
        ensures rest[j].address != ws[0].address
      {
        assert rest[j] in ws[1..];
      }
    }
  }

  lemma RetainKeeps(ws: seq<Wallet>, doomed: string)
    requires DistinctAddresses(ws) && WithinLimits(ws)
    ensures DistinctAddresses(Retain(ws, doomed)) && WithinLimits(Retain(ws, doomed))
  {
    RetainKeepsDistinct(ws, doomed);
    RetainHolds(ws, doomed);
    forall i | 0 <= i < |Retain(ws, doomed)|
      ensures Retain(ws, doomed)[i].Remaining() <= Retain(ws, doomed)[i].Amount()
    {
      assert Retain(ws, doomed)[i] in ws;
    }
  }

  lemma ListedFirst(ws: seq<Wallet>, addr: string)
    requires ws != []
    ensures Listed(ws, addr) == if ws[0].address == addr then Some(ws[0]) else Listed(ws[1..], addr)
  {
  }

  lemma {:induction false} ListedInBoth(x: seq<Wallet>, y: seq<Wallet>, addr: string)
    ensures Listed(x + y, addr) == if Listed(x, addr).Some? then Listed(x, addr) else Listed(y, addr)
  {
    if x == [] {
      assert x + y == y;
    } else {
      assert (x + y)[0] == x[0] && (x + y)[1..] == x[1..] + y;
      ListedInBoth(x[1..], y, addr);
      ListedFirst(x + y, addr);
      ListedFirst(x, addr);
    }
  }

  lemma {:induction false} ListedAfterRetain(ws: seq<Wallet>, doomed: string, addr: string)
    ensures Listed(Retain(ws, doomed), addr) == if addr == doomed then None else Listed(ws, addr)
  {
    if ws != [] {
      var head := if ws[0].address != doomed then [ws[0]] else [];
      ListedAfterRetain(ws[1..], doomed, addr);
      ListedInBoth(head, Retain(ws[1..], doomed), addr);
      ListedFirst(ws, addr);
    }
  }

  /** After an addition exactly the new address is found anew, as added; all others as before. */
  lemma AddedIsFound(cfg: Config, env: Env, w: Wallet, addr: string)
    requires AddWallet(cfg, env, w).Ok?
    ensures AddWallet(cfg, env, w).value.cfg.GetWallet(addr)
            == if addr == w.address then Some(w) else cfg.GetWallet(addr)
    ensures cfg.GetWallet(w.address) == None
  {
    ListedInBoth(cfg.hotWallets, [w], addr);
  }

  /** After a removal exactly the removed address is not found any more. */
  lemma RemovedIsNotFound(cfg: Config, env: Env, doomed: string, addr: string)
    requires RemoveWallet(cfg, env, doomed).Ok?
    ensures RemoveWallet(cfg, env, doomed).value.cfg.GetWallet(addr)
            == if addr == doomed then None else cfg.GetWallet(addr)
    ensures cfg.GetWallet(doomed).Some?
  {
    ListedAfterRetain(cfg.hotWallets, doomed, addr);
  }

  lemma {:induction false} RetainWithoutDoomed(ws: seq<Wallet>, w: Wallet)
    requires Listed(ws, w.address).None?
    ensures Retain(ws + [w], w.address) == ws
  {
    if ws != [] {
      assert (ws + [w])[1..] == ws[1..] + [w];
      ListedFirst(ws, w.address);
      RetainWithoutDoomed(ws[1..], w);
    } else {
      assert [w][1..] == [];
      assert ws + [w] == [w];
    }
  }

  /** Removing a wallet that was just added gives back the state from before. */
  lemma RemoveUndoesAdd(cfg: Config, env: Env, w: Wallet)
    requires AddWallet(cfg, env, w).Ok?
    ensures RemoveWallet(AddWallet(cfg, env, w).value.cfg, env, w.address) == Ok(Outcome(cfg, []))
  {
    AddedIsFound(cfg, env, w, w.address);
    RetainWithoutDoomed(cfg.hotWallets, w);
  }
}
