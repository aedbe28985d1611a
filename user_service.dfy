/** The user service: topping up a commuter's wallet. */
module Users {
  import opened Wrappers
  import opened Entities
  import opened Store
  import Ledger

  class UserService {
    const store: Repositories

    constructor (store: Repositories)
      ensures this.store == store
    {
      this.store := store;
    }

    /** `addToWallet(username, amount)`, as one transaction. */
    method AddToWallet(username: string, amount: Option<real>) returns (r: Exceptional<User>)
      modifies store
      ensures (r, store.Snapshot()) == Ledger.AddToWallet(old(store.Snapshot()), username, amount)
    {
      if username !in store.users {
        return Thrown(IllegalArgument("User not found: " + username));
      }
      var user := store.users[username];
      if !user.Commuter? {
        return Thrown(IllegalState("Only commuters have a wallet."));
      }
      var currentBalance := user.walletBalance.GetOr(0.0);
      if amount.None? {
        return Thrown(NullPointer);
      }
      var commuter := user.(walletBalance := Some(currentBalance + amount.value));
      store.SaveUser(commuter);
      r := Normal(commuter);
    }
  }
}
