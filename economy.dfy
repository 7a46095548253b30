/** Score and the coin economy (main.py `start_level`'s score, `win`'s
    reward and the buy and choose buttons of `customizing`). The database
    that stores the balance and the sets is replaced by fields held in memory. */
module Economy {

  /** The score shown during a level: half a point per tick, 100 per coin.
      The coins collected can be read back from the score and the tick count,
      and the last two digits come from the ticks alone. */
  function Score(count: nat, coins: nat): (r: nat)
    ensures (r - count / 2) / 100 == coins
    ensures r % 100 == (count / 2) % 100
  {
    count / 2 + 100 * coins
  }

  /** A tick that picks up k coins raises the score by 100 k, plus 1 on every
      second tick; the score never goes down during a level. */
  lemma ScoreStep(count: nat, coins: nat, k: nat)
    ensures Score(count + 1, coins + k) - Score(count, coins) == 100 * k + (if count % 2 == 1 then 1 else 0)
    ensures Score(count, coins) <= Score(count + 1, coins + k)
  {
  }

  /** A row of the `Sets` table: `Is_buyed` and `Cost`. */
  datatype SetRecord = SetRecord(owned: bool, cost: int)

  /** What pressing "buy" on a set leads to. */
  datatype Purchase = Bought | AlreadyOwned | InsufficientFunds

  /** The persistent progress: `COINS`, the `Sets` table and `set_for_playing`. */
  class Store {
    var balance: int
    var sets: map<string, SetRecord>
    var playing: string

    /** The balance is never negative. */
    ghost predicate Valid()
      reads this
    {
      balance >= 0
    }

    /** The set played with is a known, owned set. The store starts with
        `Standard` selected whether or not it is owned. */
    predicate PlayingOwned()
      reads this
    {
      playing in sets && sets[playing].owned
    }

    constructor (balance: int, sets: map<string, SetRecord>, playing: string)
      requires balance >= 0
      ensures Valid()
      ensures this.balance == balance && this.sets == sets && this.playing == playing
    {
      this.balance := balance;
      this.sets := sets;
      this.playing := playing;
    }

    /** The "buy" button for set `name`: a set not owned and affordable is
        paid for and marked owned; otherwise nothing changes. */
    method Buy(name: string) returns (r: Purchase)
      requires Valid() && name in sets
      modifies this`balance, this`sets
      ensures Valid()
      ensures r == Bought <==> !old(sets[name].owned) && old(balance) >= old(sets[name].cost)
      ensures r == AlreadyOwned <==> old(sets[name].owned)
      ensures r == Bought ==>
        balance == old(balance) - old(sets[name].cost) &&
        sets == old(sets)[name := SetRecord(true, old(sets[name].cost))]
      ensures r != Bought ==> balance == old(balance) && sets == old(sets)
      ensures old(PlayingOwned()) ==> PlayingOwned()
    {
      if !sets[name].owned {
        var cost := sets[name].cost;
        if balance >= cost {
          balance := balance - cost;
          sets := sets[name := SetRecord(true, cost)];
          return Bought;
        }
        return InsufficientFunds;
      }
      return AlreadyOwned;
    }

    /** The "choose" button for set `name`: only an owned set becomes the one
        played with. */
    method Choose(name: string) returns (chosen: bool)
      requires Valid() && name in sets
      modifies this`playing
      ensures Valid()
      ensures chosen == sets[name].owned
      ensures playing == if chosen then name else old(playing)
      ensures old(PlayingOwned()) || chosen ==> PlayingOwned()
    {
      chosen := sets[name].owned;
      if chosen {
        playing := name;
      }
    }

    /** `win`: the coins collected in the level are added to the balance. */
    method Reward(collected: nat)
      requires Valid()
      modifies this`balance
      ensures Valid()
      ensures balance == old(balance) + collected
    {
      balance := balance + collected;
    }
  }
}
