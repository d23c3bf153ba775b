/**
  The MWEB coin database (crates/mweb/src/coin_db.rs): unspent and spent coins by output id.
 */
module MwebCoins {
  import opened Wrappers
  import opened Leafsets

  type OutputId = nat

  datatype Coin = Coin(id: OutputId, leafIndex: Option<nat>, height: Option<nat>)

  class MwebCoinDatabase {
    var coins: map<OutputId, Coin>
    var spent: map<OutputId, Coin>

    /** Coins are kept under their own id, and none is both unspent and spent. */
    ghost predicate Valid()
      reads this
    {
      && (forall id :: id in coins ==> coins[id].id == id)
      && (forall id :: id in spent ==> spent[id].id == id)
      && coins.Keys !! spent.Keys
    }

    /** All coins, spent or not. */
    ghost function Known(): set<OutputId>
      reads this
    {
      coins.Keys + spent.Keys
    }

    constructor ()
      ensures Valid() && coins == map[] && spent == map[]
    {
      coins, spent := map[], map[];
    }

    /** `insert` */
    method Insert(coin: Coin)
      requires Valid()
      modifies this
      ensures Valid()
      ensures coins == old(coins)[coin.id := coin] && spent == old(spent) - {coin.id}
    {
      spent := spent - {coin.id};
      coins := coins[coin.id := coin];
    }

    /** `mark_spent` */
    method MarkSpent(id: OutputId) returns (moved: bool)
      requires Valid()
      modifies this
      ensures Valid() && moved == (id in old(coins))
      ensures coins == old(coins) - {id}
      ensures spent == if moved then old(spent)[id := old(coins)[id]] else old(spent)
    {
      if id in coins {
        var coin := coins[id];
        coins := coins - {id};
        spent := spent[id := coin];
        return true;
      }
      assert coins - {id} == coins;
      return false;
    }

    /** `find_by_leaf_index`: the first such coin in id order. */
    method FindByLeafIndex(leaf: nat) returns (found: Option<OutputId>)
      requires Valid()
      ensures found.None? ==> forall id :: id in coins ==> coins[id].leafIndex != Some(leaf)
      ensures found.Some? ==> found.value in coins && coins[found.value].leafIndex == Some(leaf)
      ensures found.Some? ==> forall id :: id in coins && coins[id].leafIndex == Some(leaf) ==> found.value <= id
    {
      var rest := coins.Keys;
      while rest != {}
        invariant rest <= coins.Keys
        invariant forall id :: id in coins && id !in rest ==> coins[id].leafIndex != Some(leaf)
        invariant forall id, other :: id in coins && id !in rest && other in rest ==> id < other
      {
        var id := Smallest(rest);
        if coins[id].leafIndex == Some(leaf) {
          return Some(id);
        }
        rest := rest - {id};
      }
      return None;
    }

    /** `mark_spent_by_leaf_index` */
    method MarkSpentByLeafIndex(leaf: nat) returns (moved: Option<OutputId>)
      requires Valid()
      modifies this
      ensures Valid()
      ensures moved.None? ==> coins == old(coins) && spent == old(spent)
                              && forall id :: id in coins ==> coins[id].leafIndex != Some(leaf)
      ensures moved.Some? ==>
                && moved.value in old(coins) && old(coins)[moved.value].leafIndex == Some(leaf)
                && (forall id :: id in old(coins) && old(coins)[id].leafIndex == Some(leaf) ==> moved.value <= id)
                && coins == old(coins) - {moved.value}
                && spent == old(spent)[moved.value := old(coins)[moved.value]]
    {
      var found := FindByLeafIndex(leaf);
      if found.Some? {
        var _ := MarkSpent(found.value);
      }
      return found;
    }

    /** `set_block_height` */
    method SetBlockHeight(id: OutputId, height: nat) returns (known: bool)
      requires Valid()
      modifies this`coins
      ensures Valid() && known == (id in old(coins))
      ensures coins == if known then old(coins)[id := old(coins)[id].(height := Some(height))] else old(coins)
    {
      if id !in coins {
        return false;
      }
      coins := coins[id := coins[id].(height := Some(height))];
      return true;
    }

    /** `disconnect_from`: forgets the heights at or above `height`, and nothing else. */
    method DisconnectFrom(height: nat)
      requires Valid()
      modifies this
      ensures Valid()
      ensures coins == Disconnected(old(coins), height) && spent == Disconnected(old(spent), height)
      ensures Forgotten(old(coins), coins, height) && Forgotten(old(spent), spent, height)
    {
      DisconnectedForgets(coins, height);
      DisconnectedForgets(spent, height);
      coins := ForgetHeights(coins, height);
      spent := ForgetHeights(spent, height);
    }
  }

  method ForgetHeights(coins: map<OutputId, Coin>, height: nat) returns (r: map<OutputId, Coin>)
    ensures r == Disconnected(coins, height)
  {
    r := coins;
    var rest := coins.Keys;
    while rest != {}
      invariant rest <= coins.Keys == r.Keys
      invariant forall id :: id in r ==> r[id] == if id in rest then coins[id] else Disconnected(coins, height)[id]
    {
      var id :| id in rest;
      if r[id].height.Some? && r[id].height.value >= height {
        r := r[id := r[id].(height := None)];
      }
      rest := rest - {id};
    }
  }

  /** No coin is lost, exactly the heights below the given one are kept, and nothing else changes. */
  ghost predicate Forgotten(before: map<OutputId, Coin>, after: map<OutputId, Coin>, height: nat) {
    && after.Keys == before.Keys
    && forall id :: id in after ==>
         && after[id].id == before[id].id && after[id].leafIndex == before[id].leafIndex
         && (before[id].height.Some? && before[id].height.value < height ==> after[id].height == before[id].height)
         && (before[id].height.None? || before[id].height.value >= height ==> after[id].height.None?)
  }

  lemma DisconnectedForgets(coins: map<OutputId, Coin>, height: nat)
    ensures Forgotten(coins, Disconnected(coins, height), height)
  {
  }

  function Disconnected(coins: map<OutputId, Coin>, height: nat): map<OutputId, Coin> {
    map id | id in coins ::
      if coins[id].height.Some? && coins[id].height.value >= height then coins[id].(height := None) else coins[id]
  }
}
