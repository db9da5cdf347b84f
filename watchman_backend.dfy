/**
 * The watchman backend's subscription bookkeeping (src/watchman/watchman.cc):
 * the ignore expression built in `subscribe`, the subscription name derived
 * from a watcher's address, and the `mSubscriptions` table that `subscribe`,
 * `unsubscribe` and `handleSubscription` share.
 *
 * The socket is not part of this model: every request sent through
 * `watchmanRequest` is appended to a log, and the one response the model
 * needs (the clock) is a parameter.
 */
module WatchmanBackend {
  import opened Wrappers
  import opened WatchmanFiles
  import opened Sequences

  /** The message thrown when a clock response has no "clock" key. */
  const ClockError: string := "Error reading clock from watchman"

  /** The prefix of every subscription name. */
  const IdPrefix: string := "fschanges-"

  /** The fields a subscription asks watchman to report for each file. */
  const SubscribedFields: seq<string> := ["name", "mode", "exists", "new"]

  /** A watchman query expression, as far as the backend builds one. */
  datatype Expr = Not(operand: Expr) | AnyOf(terms: seq<Expr>) | Dirname(relative: Path)

  /** A request sent to watchman. */
  datatype Command =
    | WatchCmd(root: Path)
    | ClockCmd(root: Path)
    | SubscribeCmd(root: Path, name: string, fields: seq<string>, since: string, expression: Option<Expr>)
    | UnsubscribeCmd(root: Path, name: string)

  predicate StartsWith(s: string, prefix: string) {
    |prefix| <= |s| && s[..|prefix|] == prefix
  }

  /** The term one ignore rule contributes: its `dirname` relative to the root when it lies under the root, else none. */
  function RuleTerm(dir: Path, rule: Path): seq<Expr>
  {
    var pathStart := dir + DirSep;
    if StartsWith(rule, pathStart) then [Dirname(rule[|pathStart|..])] else []
  }

  function RuleStep(dir: Path): Path -> seq<Expr>
  {
    rule => RuleTerm(dir, rule)
  }

  /**
   * The `dirname` terms of the ignore expression: one per rule that lies under
   * `dir + DIR_SEP`, holding the rule with that prefix stripped, in rule order.
   * Rules outside the root are left out.
   */
  function IgnoreTerms(dir: Path, rules: seq<Path>): seq<Expr>
  {
    FlatMap(RuleStep(dir), rules)
  }

  /** The expression attached to a subscription: none without ignore rules, else "not anyof" the dirname terms. */
  function IgnoreExpression(dir: Path, rules: seq<Path>): Option<Expr>
  {
    if |rules| > 0 then Some(Not(AnyOf(IgnoreTerms(dir, rules)))) else None
  }

  /**
   * A dirname term names `relative` exactly when `dir + DIR_SEP + relative` is
   * one of the rules: the stripped prefix is put back by the root, and no rule
   * under the root is lost.
   */
  lemma IgnoreTermsExact(dir: Path, rules: seq<Path>, relative: Path)
    ensures Dirname(relative) in IgnoreTerms(dir, rules) <==> RecordPath(dir, relative) in rules
  {
    var prefix := dir + DirSep;
    if Dirname(relative) in IgnoreTerms(dir, rules) {
      FlatMapMember(RuleStep(dir), rules, Dirname(relative));
      var k :| 0 <= k < |rules| && Dirname(relative) in RuleStep(dir)(rules[k]);
      assert Dirname(relative) in RuleTerm(dir, rules[k]);
      assert rules[k] == prefix + rules[k][|prefix|..];
    }
    if RecordPath(dir, relative) in rules {
      var k :| 0 <= k < |rules| && rules[k] == RecordPath(dir, relative);
      assert rules[k][..|prefix|] == prefix;
      assert rules[k][|prefix|..] == relative;
      assert RuleStep(dir)(rules[k]) == [Dirname(relative)];
      FlatMapContains(RuleStep(dir), rules, k, Dirname(relative));
    }
  }

  /** Every term is a dirname term, and there is at most one per rule. */
  lemma IgnoreTermsShape(dir: Path, rules: seq<Path>)
    ensures |IgnoreTerms(dir, rules)| <= |rules|
    ensures forall t :: t in IgnoreTerms(dir, rules) ==> t.Dirname?
  {
    FlatMapAtMostOneEach(RuleStep(dir), rules);
    forall t | t in IgnoreTerms(dir, rules)
      ensures t.Dirname?
    {
      FlatMapMember(RuleStep(dir), rules, t);
    }
  }

  /**
   * The loop of `subscribe` that builds the ignore expression by pushing one
   * dirname term per rule under the root onto an "anyof" array.
   */
  method BuildIgnoreExpression(dir: Path, rules: seq<Path>) returns (expr: Option<Expr>)
    ensures expr.Some? <==> |rules| > 0
    ensures expr == IgnoreExpression(dir, rules)
  {
    if |rules| == 0 {
      return None;
    }
    var anyOf: seq<Expr> := [];
    var i := 0;
    while i < |rules|
      invariant 0 <= i <= |rules|
      invariant anyOf == IgnoreTerms(dir, rules[..i])
    {
      var pathStart := dir + DirSep;
      assert rules[..i + 1] == rules[..i] + [rules[i]];
      FlatMapSnoc(RuleStep(dir), rules[..i], rules[i]);
      if |pathStart| <= |rules[i]| && rules[i][..|pathStart|] == pathStart {
        var relative := rules[i][|pathStart|..];
        anyOf := anyOf + [Dirname(relative)];
      }
      i := i + 1;
    }
    assert rules[..i] == rules;
    expr := Some(Not(AnyOf(anyOf)));
  }

  /** A lowercase hexadecimal digit. */
  function HexDigit(d: nat): (c: char)
    requires d < 16
  {
    if d < 10 then (48 + d) as char else (87 + d) as char
  }

  /** The lowercase hexadecimal numeral of `n`, without leading zeros. */
  function Hex(n: nat): (s: string)
    ensures |s| >= 1
    ensures n >= 16 ==> |s| >= 2
    decreases n
  {
    if n < 16 then [HexDigit(n)] else Hex(n / 16) + [HexDigit(n % 16)]
  }

  /** `getId`: "fschanges-" followed by the watcher's address as a stream prints a pointer. */
  function SubscriptionId(address: nat): (id: string)
    ensures StartsWith(id, IdPrefix)
  {
    IdPrefix + "0x" + Hex(address)
  }

  lemma HexDigitInjective(a: nat, b: nat)
    requires a < 16 && b < 16 && HexDigit(a) == HexDigit(b)
    ensures a == b
  {
    assert HexDigit(a) as int == (if a < 10 then 48 + a else 87 + a);
    assert HexDigit(b) as int == (if b < 10 then 48 + b else 87 + b);
  }

  lemma {:induction false} HexInjective(a: nat, b: nat)
    requires Hex(a) == Hex(b)
    ensures a == b
    decreases a
  {
    if a < 16 && b < 16 {
      HexDigitInjective(a, b);
    } else if a >= 16 && b >= 16 {
      var ha, hb := Hex(a), Hex(b);
      assert ha[|ha| - 1] == HexDigit(a % 16);
      assert hb[|hb| - 1] == HexDigit(b % 16);
      HexDigitInjective(a % 16, b % 16);
      assert ha[..|ha| - 1] == Hex(a / 16);
      assert hb[..|hb| - 1] == Hex(b / 16);
      HexInjective(a / 16, b / 16);
    }
  }

  /** Watchers at distinct addresses get distinct subscription names, so one never erases another's entry. */
  lemma SubscriptionIdInjective(a: nat, b: nat)
    requires SubscriptionId(a) == SubscriptionId(b)
    ensures a == b
  {
    var p := IdPrefix + "0x";
    assert SubscriptionId(a)[|p|..] == Hex(a);
    assert SubscriptionId(b)[|p|..] == Hex(b);
    HexInjective(a, b);
  }

  /** Every entry of a subscription table is filed under its own watcher's name, as `subscribe` files it. */
  predicate NamedByAddress(table: map<string, Watcher>)
  {
    forall id | id in table :: id == SubscriptionId(table[id].address)
  }

  /** A table filed by name holds at most one entry per watcher address. */
  lemma OneEntryPerWatcher(table: map<string, Watcher>, id1: string, id2: string)
    requires NamedByAddress(table)
    requires id1 in table && id2 in table && table[id1].address == table[id2].address
    ensures id1 == id2
  {
  }

  /**
   * Erasing one watcher's name keeps the entry of every watcher at another
   * address: names of distinct addresses differ.
   */
  lemma EraseKeepsOthers(table: map<string, Watcher>, w: Watcher, id: string)
    requires NamedByAddress(table)
    requires id in table && table[id].address != w.address
    ensures id in table - {SubscriptionId(w.address)}
    ensures (table - {SubscriptionId(w.address)})[id] == table[id]
  {
    if id == SubscriptionId(w.address) {
      SubscriptionIdInjective(table[id].address, w.address);
    }
  }

  /** The backend's subscription table and the log of requests it has sent to watchman. */
  class Backend {
    var subscriptions: map<string, Watcher>
    var sent: seq<Command>

    /** The table invariant: every entry is filed under its watcher's name. */
    predicate Valid()
      reads this
    {
      NamedByAddress(subscriptions)
    }

    constructor ()
      ensures Valid()
      ensures subscriptions == map[] && sent == []
    {
      subscriptions := map[];
      sent := [];
    }

    /**
     * `subscribe`: watch the root, register the watcher under its name (an
     * existing entry is kept, as `emplace` does), ask for the clock and, when
     * the clock response has one, send the subscription with the ignore
     * expression. A clock response without a clock throws after the watcher
     * has been registered.
     */
    method Subscribe(watcher: Watcher, clockReply: Option<string>) returns (outcome: Outcome<string>)
      requires Valid()
      modifies this
      ensures Valid()
      ensures var id := SubscriptionId(watcher.address);
              subscriptions == if id in old(subscriptions) then old(subscriptions) else old(subscriptions)[id := watcher]
      ensures clockReply.None? ==>
                && outcome == Fail(ClockError)
                && sent == old(sent) + [WatchCmd(watcher.dir), ClockCmd(watcher.dir)]
      ensures clockReply.Some? ==>
                && outcome == Pass
                && sent == old(sent) + [WatchCmd(watcher.dir), ClockCmd(watcher.dir),
                                        SubscribeCmd(watcher.dir, SubscriptionId(watcher.address), SubscribedFields,
                                                     clockReply.value, IgnoreExpression(watcher.dir, watcher.ignore))]
    {
      sent := sent + [WatchCmd(watcher.dir)];
      var id := SubscriptionId(watcher.address);
      if id !in subscriptions {
        subscriptions := subscriptions[id := watcher];
      }
      sent := sent + [ClockCmd(watcher.dir)];
      if clockReply.None? {
        return Fail(ClockError);
      }
      var expression := BuildIgnoreExpression(watcher.dir, watcher.ignore);
      sent := sent + [SubscribeCmd(watcher.dir, id, SubscribedFields, clockReply.value, expression)];
      outcome := Pass;
    }

    /**
     * `unsubscribe`: erase the watcher's entry, and send the unsubscribe
     * request only when an entry was actually erased.
     */
    method Unsubscribe(watcher: Watcher)
      requires Valid()
      modifies this
      ensures Valid()
      ensures subscriptions == old(subscriptions) - {SubscriptionId(watcher.address)}
      ensures forall id | id in old(subscriptions) && old(subscriptions)[id].address != watcher.address
                :: id in subscriptions && subscriptions[id] == old(subscriptions)[id]
      ensures SubscriptionId(watcher.address) in old(subscriptions) ==>
                sent == old(sent) + [UnsubscribeCmd(watcher.dir, SubscriptionId(watcher.address))]
      ensures SubscriptionId(watcher.address) !in old(subscriptions) ==> sent == old(sent)
    {
      var id := SubscriptionId(watcher.address);
      var erased := id in subscriptions;
      ghost var table := subscriptions;
      subscriptions := subscriptions - {id};
      if erased {
        sent := sent + [UnsubscribeCmd(watcher.dir, id)];
      }
      forall other | other in table && table[other].address != watcher.address
        ensures other in subscriptions && subscriptions[other] == table[other]
      {
        EraseKeepsOthers(table, watcher, other);
      }
    }

    /**
     * `handleSubscription`: a message for an unknown subscription name touches
     * no watcher; otherwise the named watcher handles the files and, unless
     * that threw, is notified.
     */
    method HandleSubscription(msg: Message) returns (outcome: Outcome<string>)
      requires msg.subscription.Some?
      modifies subscriptions.Values
      ensures msg.subscription.value !in subscriptions ==> outcome == Pass
      ensures forall w :: w in subscriptions.Values && (msg.subscription.value !in subscriptions || w != subscriptions[msg.subscription.value])
                ==> w.events == old(w.events) && w.notifications == old(w.notifications)
      ensures msg.subscription.value in subscriptions ==>
                var w := subscriptions[msg.subscription.value];
                && (msg.files.None? ==>
                      && outcome == Fail(FilesError)
                      && w.events == old(w.events) && w.notifications == old(w.notifications))
                && (msg.files.Some? ==>
                      && outcome == Pass
                      && w.events == old(w.events) + Translate(w.dir, w.isIgnored, msg.files.value)
                      && w.notifications == old(w.notifications) + 1)
    {
      var name := msg.subscription.value;
      if name !in subscriptions {
        return Pass;
      }
      var watcher := subscriptions[name];
      outcome := HandleFiles(watcher, msg);
      if outcome.Fail? {
        return;
      }
      watcher.notifications := watcher.notifications + 1;
    }
  }

  /** Unsubscribing twice: the second call sends nothing and leaves the table as the first left it. */
  method UnsubscribeTwice(backend: Backend, watcher: Watcher)
    requires backend.Valid()
    modifies backend
    ensures backend.Valid()
    ensures backend.subscriptions == old(backend.subscriptions) - {SubscriptionId(watcher.address)}
    ensures backend.sent == old(backend.sent) + (if SubscriptionId(watcher.address) in old(backend.subscriptions)
                                                 then [UnsubscribeCmd(watcher.dir, SubscriptionId(watcher.address))]
                                                 else [])
  {
    backend.Unsubscribe(watcher);
    var table, log := backend.subscriptions, backend.sent;
    backend.Unsubscribe(watcher);
    assert backend.subscriptions == table && backend.sent == log;
  }

  /**
   * Subscribing a watcher that was not registered and then unsubscribing it
   * leaves the table as it was, and the unsubscribe request goes out.
   */
  method SubscribeThenUnsubscribe(backend: Backend, watcher: Watcher, clockReply: Option<string>)
    requires backend.Valid() && SubscriptionId(watcher.address) !in backend.subscriptions
    modifies backend
    ensures backend.Valid()
    ensures backend.subscriptions == old(backend.subscriptions)
    ensures |backend.sent| > 0 && backend.sent[|backend.sent| - 1] == UnsubscribeCmd(watcher.dir, SubscriptionId(watcher.address))
  {
    var _ := backend.Subscribe(watcher, clockReply);
    backend.Unsubscribe(watcher);
    assert old(backend.subscriptions)[SubscriptionId(watcher.address) := watcher] - {SubscriptionId(watcher.address)}
        == old(backend.subscriptions);
  }
}
