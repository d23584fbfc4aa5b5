/** The monthly usage tracker (api/internal/usage/monthly.go:16-56): per-subject counters of the current month
    and the one-time merge of an installation's counter into a user's. */
module MonthlyUsage {
  /** "installation:<id>" and "user:<id>". */
  datatype Subject = Installation(id: string) | User(id: string)

  /** The key "<year>-<month>:<subject>"; months are numbered. */
  datatype Key = Key(month: nat, subject: Subject)

  datatype Migration = Migration(source: Key, target: Key)

  datatype Usage = Usage(entries: map<Key, int>, migrations: set<Migration>)

  function Count(u: Usage, k: Key): int {
    if k in u.entries then u.entries[k] else 0
  }

  predicate Fits(u: Usage, k: Key, limit: int, amount: int) {
    Count(u, k) + amount <= limit
  }

  function Consume(u: Usage, k: Key, limit: int, amount: int): Usage {
    if Fits(u, k, limit, amount) then u.(entries := u.entries[k := Count(u, k) + amount]) else u
  }

  function Merge(u: Usage, source: Key, target: Key): Usage {
    if Migration(source, target) in u.migrations then u
    else Usage(u.entries[target := Count(u, target) + Count(u, source)], u.migrations + {Migration(source, target)})
  }

  class MonthlyInMemory {
    var entries: map<Key, int>
    var migrations: set<Migration>
    // The month that `now()` falls in; the lock keeps it fixed during a call.
    var month: nat

    ghost function View(): Usage
      reads this
    {
      Usage(entries, migrations)
    }

    constructor (month: nat)
      ensures View() == Usage(map[], {}) && this.month == month
    {
      entries, migrations, this.month := map[], {}, month;
    }

    /** `CheckAndConsume`: allowed exactly when the amount still fits, and then charged. */
    method CheckAndConsume(subject: Subject, limit: int, amount: int) returns (allowed: bool, count: int)
      modifies this`entries
      ensures allowed == Fits(old(View()), Key(month, subject), limit, amount)
      ensures View() == Consume(old(View()), Key(month, subject), limit, amount)
      ensures count == Count(View(), Key(month, subject))
    {
      var key := Key(month, subject);
      var used := if key in entries then entries[key] else 0;
      if used + amount > limit { return false, used; }
      used := used + amount;
      entries := entries[key := used];
      return true, used;
    }

    method MergeInstallationIntoUser(installation: Subject, user: Subject)
      modifies this`entries, this`migrations
      ensures View() == Merge(old(View()), Key(month, installation), Key(month, user))
    {
      var source, target := Key(month, installation), Key(month, user);
      var migration := Migration(source, target);
      if migration in migrations { return; }
      var used := if target in entries then entries[target] else 0;
      entries := entries[target := used + if source in entries then entries[source] else 0];
      migrations := migrations + {migration};
    }
  }
}
