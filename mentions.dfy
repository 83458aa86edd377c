/** The mention lists of the group commands: `/all`, `/allbug` and `/allerror` share one loop
    (administrators first, then registered users, with a set of keys against repeats); `/admins`
    mentions the administrators without that set. `create_safe_mention_text` lays the tokens out
    five per line. */
module Mentions {
  import opened Strings
  import opened Sanitize

  /** The part of a Telegram user the bot looks at. */
  datatype User = User(id: int, isBot: bool, username: Option<string>, firstName: Option<string>, lastName: Option<string>)

  /** What `get_chat_member` gave for a registered id: an exception, or a member record. */
  datatype Lookup = Failed | Found(status: string, user: User)

  /** A registered id, in the order the set is iterated, with its lookup result. */
  datatype Registered = Registered(id: int, lookup: Lookup)

  /** A mention the loop may emit: the token itself and the key it is recorded under. */
  datatype Candidate = Candidate(key: string, token: string)

  /** The loop state: the emitted candidates (their tokens are `mentions`) and the key set
      `mentioned_users`. */
  datatype Plan = Plan(emitted: seq<Candidate>, keys: set<string>)

  const MemberStatuses: set<string> := {"member", "administrator", "creator"}

  function IdKey(id: int): string
  {
    "user_" + IntToString(id)
  }

  /** The deep link `[name](tg://user?id=N)`. */
  function Link(name: string, id: int): string
  {
    "[" + name + "](tg://user?id=" + IntToString(id) + ")"
  }

  function UsernameCandidate(username: string): Candidate
  {
    var tag := "@" + CleanNameForMention(username);
    Candidate(tag, tag)
  }

  /** The visible name of an administrator without a username: cleaned first name (or
      "Usuario"), then the cleaned last name when there is one. */
  function AdminName(u: User): string
  {
    var first := CleanNameForMention(if Truthy(u.firstName) then u.firstName.value else DefaultName);
    if Truthy(u.lastName) then first + " " + CleanNameForMention(u.lastName.value) else first
  }

  /** What the administrator pass offers for one administrator: nothing for a bot. */
  function AdminCandidate(u: User): Option<Candidate>
  {
    if u.isBot then None
    else if Truthy(u.username) then Some(UsernameCandidate(u.username.value))
    else Some(Candidate(IdKey(u.id), Link(AdminName(u), u.id)))
  }

  /** The visible name of a registered member without a username, built with
      `escape_markdown`. `escape_markdown(None)` is None, which an f-string shows as "None"
      and which raises when a last name is appended to it: then there is no name. */
  function RegistryName(u: User): Option<string>
  {
    if u.firstName.None? && Truthy(u.lastName) then None
    else
      var first := if u.firstName.Some? then EscapeMarkdown(u.firstName.value) else Show(None);
      Some(if Truthy(u.lastName) then first + " " + EscapeMarkdown(u.lastName.value) else first)
  }

  /** What the registry pass offers for one registered id: nothing when the lookup raised, the
      status is not a membership, or building the name raised. Bots are not skipped, and the
      link uses the registered id. */
  function RegistryCandidate(r: Registered): Option<Candidate>
  {
    match r.lookup
    case Failed => None
    case Found(status, u) =>
      if status !in MemberStatuses then None
      else if Truthy(u.username) then Some(UsernameCandidate(u.username.value))
      else
        match RegistryName(u)
        case None => None
        case Some(name) => Some(Candidate(IdKey(r.id), Link(name, r.id)))
  }

  function AdminOffers(admins: seq<User>): (cs: seq<Option<Candidate>>)
    ensures |cs| == |admins|
    ensures forall i :: 0 <= i < |admins| ==> cs[i] == AdminCandidate(admins[i])
  {
    seq(|admins|, i requires 0 <= i < |admins| => AdminCandidate(admins[i]))
  }

  function RegistryOffers(regs: seq<Registered>): (cs: seq<Option<Candidate>>)
    ensures |cs| == |regs|
    ensures forall i :: 0 <= i < |regs| ==> cs[i] == RegistryCandidate(regs[i])
  {
    seq(|regs|, i requires 0 <= i < |regs| => RegistryCandidate(regs[i]))
  }

  /** One step of the loop: emit the candidate unless its key was already recorded. */
  function Offer(p: Plan, c: Option<Candidate>): Plan
  {
    if c.Some? && c.value.key !in p.keys then Plan(p.emitted + [c.value], p.keys + {c.value.key}) else p
  }

  function Fold(p: Plan, cs: seq<Option<Candidate>>): Plan
  {
    if cs == [] then p else Offer(Fold(p, cs[..|cs| - 1]), cs[|cs| - 1])
  }

  /** The state the shared loop of `/all`, `/allbug` and `/allerror` ends in. */
  function MentionPlan(admins: seq<User>, regs: seq<Registered>): Plan
  {
    Fold(Fold(Plan([], {}), AdminOffers(admins)), RegistryOffers(regs))
  }

  function Tokens(es: seq<Candidate>): (ts: seq<string>)
    ensures |ts| == |es|
    ensures forall i :: 0 <= i < |es| ==> ts[i] == es[i].token
  {
    if es == [] then [] else Tokens(es[..|es| - 1]) + [es[|es| - 1].token]
  }

  function KeysOf(es: seq<Candidate>): set<string>
  {
    set i | 0 <= i < |es| :: es[i].key
  }

  /** The keys of the offered candidates. */
  function OfferedKeys(cs: seq<Option<Candidate>>): set<string>
  {
    set i | 0 <= i < |cs| && cs[i].Some? :: cs[i].value.key
  }

  predicate DistinctKeys(es: seq<Candidate>)
  {
    forall i, j :: 0 <= i < j < |es| ==> es[i].key != es[j].key
  }

  /** The set of recorded keys is exactly the keys of the emitted mentions, each key once. */
  predicate WellKeyed(p: Plan)
  {
    DistinctKeys(p.emitted) && p.keys == KeysOf(p.emitted)
  }

  /** The candidates that were offered (the Some entries), in order. */
  function Somes(cs: seq<Option<Candidate>>): seq<Candidate>
  {
    if cs == [] then []
    else Somes(cs[..|cs| - 1]) + (if cs[|cs| - 1].Some? then [cs[|cs| - 1].value] else [])
  }

  // ---------------------------------------------------------------------------------------
  // The shared loop

  /** One pass of the loop of `mention_all` over the offers, from the state `mentions`,
      `mentioned` that `p` describes. */
  method RunPass(p: Plan, offers: seq<Option<Candidate>>, mentions0: seq<string>, mentioned0: set<string>)
      returns (mentions: seq<string>, mentioned: set<string>)
    requires mentions0 == Tokens(p.emitted) && mentioned0 == p.keys
    ensures mentions == Tokens(Fold(p, offers).emitted)
    ensures mentioned == Fold(p, offers).keys
  {
    mentions, mentioned := mentions0, mentioned0;
    ghost var q := p;
    var i := 0;
    while i < |offers|
      invariant 0 <= i <= |offers|
      invariant q == Fold(p, offers[..i])
      invariant mentions == Tokens(q.emitted) && mentioned == q.keys
    {
      var c := offers[i];
      if c.Some? && c.value.key !in mentioned {
        mentions := mentions + [c.value.token];
        mentioned := mentioned + {c.value.key};
      }
      OfferStep(q, c);
      q := Offer(q, c);
      assert offers[..i + 1][..i] == offers[..i];
      i := i + 1;
    }
    assert offers[..i] == offers;
  }

  /** The administrator loop and then the registry loop of `mention_all`: the tokens emitted
      and the keys recorded. */
  method BuildMentions(admins: seq<User>, regs: seq<Registered>) returns (mentions: seq<string>, mentioned: set<string>)
    ensures mentions == Tokens(MentionPlan(admins, regs).emitted)
    ensures mentioned == MentionPlan(admins, regs).keys
  {
    mentions, mentioned := RunPass(Plan([], {}), AdminOffers(admins), [], {});
    mentions, mentioned := RunPass(Fold(Plan([], {}), AdminOffers(admins)), RegistryOffers(regs), mentions, mentioned);
  }

  /** The token list grows with an emitted candidate. */
  lemma OfferStep(p: Plan, c: Option<Candidate>)
    ensures Tokens(Offer(p, c).emitted) ==
              Tokens(p.emitted) + (if c.Some? && c.value.key !in p.keys then [c.value.token] else [])
    ensures Offer(p, c).keys == p.keys + (if c.Some? then {c.value.key} else {})
  {
    if c.Some? && c.value.key !in p.keys {
      assert (p.emitted + [c.value])[..|p.emitted|] == p.emitted;
    }
  }

  // ---------------------------------------------------------------------------------------
  // What any pass of the loop keeps

  lemma KeysOfSnoc(es: seq<Candidate>, c: Candidate)
    ensures KeysOf(es + [c]) == KeysOf(es) + {c.key}
  {
    var e := es + [c];
    forall x | x in KeysOf(e) ensures x in KeysOf(es) + {c.key} {
      var i :| 0 <= i < |e| && e[i].key == x;
      if i < |es| {
        assert es[i].key == x;
      }
    }
    forall x | x in KeysOf(es) ensures x in KeysOf(e) {
      var i :| 0 <= i < |es| && es[i].key == x;
      assert e[i].key == x;
    }
    assert e[|es|].key == c.key;
  }

  lemma OfferWellKeyed(p: Plan, c: Option<Candidate>)
    requires WellKeyed(p)
    ensures WellKeyed(Offer(p, c))
  {
    if c.Some? && c.value.key !in p.keys {
      var e := p.emitted + [c.value];
      assert forall i :: 0 <= i < |p.emitted| ==> e[i] == p.emitted[i];
      KeysOfSnoc(p.emitted, c.value);
    }
  }

  /** Starting from a well-keyed state, a pass never emits two mentions with the same key, and
      records exactly the keys of what it emitted. */
  lemma {:induction false} FoldWellKeyed(p: Plan, cs: seq<Option<Candidate>>)
    requires WellKeyed(p)
    ensures WellKeyed(Fold(p, cs))
  {
    if cs != [] {
      FoldWellKeyed(p, cs[..|cs| - 1]);
      OfferWellKeyed(Fold(p, cs[..|cs| - 1]), cs[|cs| - 1]);
    }
  }

  /** A pass only appends to the mentions and only adds to the key set. */
  lemma {:induction false} FoldExtends(p: Plan, cs: seq<Option<Candidate>>)
    ensures |p.emitted| <= |Fold(p, cs).emitted|
    ensures Fold(p, cs).emitted[..|p.emitted|] == p.emitted
    ensures p.keys <= Fold(p, cs).keys
  {
    if cs != [] {
      var g := Fold(p, cs[..|cs| - 1]);
      FoldExtends(p, cs[..|cs| - 1]);
      if cs[|cs| - 1].Some? && cs[|cs| - 1].value.key !in g.keys {
        assert (g.emitted + [cs[|cs| - 1].value])[..|p.emitted|] == g.emitted[..|p.emitted|];
      }
    }
  }

  lemma OfferedKeysSnoc(cs: seq<Option<Candidate>>, c: Option<Candidate>)
    ensures OfferedKeys(cs + [c]) == OfferedKeys(cs) + (if c.Some? then {c.value.key} else {})
  {
    var d := cs + [c];
    assert forall i :: 0 <= i < |cs| ==> d[i] == cs[i];
    assert d[|cs|] == c;
  }

  /** After a pass the key set holds the keys it started with and the key of every candidate
      offered, however many were skipped, and nothing else. */
  lemma {:induction false} FoldKeys(p: Plan, cs: seq<Option<Candidate>>)
    ensures Fold(p, cs).keys == p.keys + OfferedKeys(cs)
  {
    if cs != [] {
      var init := cs[..|cs| - 1];
      FoldKeys(p, init);
      OfferedKeysSnoc(init, cs[|cs| - 1]);
      assert init + [cs[|cs| - 1]] == cs;
    }
  }

  /** Every mention a pass emits is one of the candidates it was offered. */
  lemma {:induction false} FoldProvenance(p: Plan, cs: seq<Option<Candidate>>)
    ensures forall j :: |p.emitted| <= j < |Fold(p, cs).emitted| ==>
              exists i :: 0 <= i < |cs| && cs[i] == Some(Fold(p, cs).emitted[j])
  {
    if cs != [] {
      var init := cs[..|cs| - 1];
      var g := Fold(p, init);
      var f := Fold(p, cs);
      FoldProvenance(p, init);
      FoldExtends(p, init);
      forall j | |p.emitted| <= j < |f.emitted| ensures exists i :: 0 <= i < |cs| && cs[i] == Some(f.emitted[j]) {
        if j < |g.emitted| {
          assert f.emitted[j] == g.emitted[j];
          var i :| 0 <= i < |init| && init[i] == Some(g.emitted[j]);
          assert cs[i] == init[i];
        } else {
          assert cs[|cs| - 1] == Some(f.emitted[j]);
        }
      }
    } else {
      assert Fold(p, cs) == p;
    }
  }

  /** The mentions a pass emits are its offered candidates in order, with some left out. */
  lemma {:induction false} FoldOrder(p: Plan, cs: seq<Option<Candidate>>)
    ensures |p.emitted| <= |Fold(p, cs).emitted|
    ensures IsSubseq(Fold(p, cs).emitted[|p.emitted|..], Somes(cs))
  {
    FoldExtends(p, cs);
    if cs != [] {
      var init := cs[..|cs| - 1];
      var c := cs[|cs| - 1];
      var g := Fold(p, init);
      var n := |p.emitted|;
      FoldOrder(p, init);
      FoldExtends(p, init);
      if c.Some? {
        SubseqAppend(g.emitted[n..], Somes(init), c.value);
        assert Somes(cs) == Somes(init) + [c.value];
        if c.value.key !in g.keys {
          assert (g.emitted + [c.value])[n..] == g.emitted[n..] + [c.value];
        }
      } else {
        assert Somes(cs) == Somes(init);
      }
    } else {
      assert Fold(p, cs).emitted[|p.emitted|..] == [];
    }
  }

  // ---------------------------------------------------------------------------------------
  // The mention list of /all, /allbug and /allerror

  /** The state after the administrator loop. */
  function AdminPlan(admins: seq<User>): Plan
  {
    Fold(Plan([], {}), AdminOffers(admins))
  }

  /** No two mentions share a key, and the recorded set is the keys of the mentions: the
      administrators' and registered members' keys, skipped candidates included. */
  lemma MentionPlanKeys(admins: seq<User>, regs: seq<Registered>)
    ensures WellKeyed(MentionPlan(admins, regs))
    ensures MentionPlan(admins, regs).keys == OfferedKeys(AdminOffers(admins)) + OfferedKeys(RegistryOffers(regs))
  {
    assert WellKeyed(Plan([], {}));
    FoldWellKeyed(Plan([], {}), AdminOffers(admins));
    FoldWellKeyed(AdminPlan(admins), RegistryOffers(regs));
    FoldKeys(Plan([], {}), AdminOffers(admins));
    FoldKeys(AdminPlan(admins), RegistryOffers(regs));
  }

  /** The administrators' mentions come first, in the order of the administrator list, and the
      registered members' follow, in the order of the registry. */
  lemma AdminsFirst(admins: seq<User>, regs: seq<Registered>)
    ensures var a := AdminPlan(admins).emitted;
      && |a| <= |MentionPlan(admins, regs).emitted|
      && MentionPlan(admins, regs).emitted[..|a|] == a
      && IsSubseq(a, Somes(AdminOffers(admins)))
      && IsSubseq(MentionPlan(admins, regs).emitted[|a|..], Somes(RegistryOffers(regs)))
  {
    FoldExtends(AdminPlan(admins), RegistryOffers(regs));
    FoldOrder(Plan([], {}), AdminOffers(admins));
    assert AdminPlan(admins).emitted[0..] == AdminPlan(admins).emitted;
    FoldOrder(AdminPlan(admins), RegistryOffers(regs));
  }

  /** Bots among the administrators are never mentioned: every administrator mention comes from
      a human administrator, and every human administrator's key is recorded. */
  lemma AdminsWithoutBots(admins: seq<User>)
    ensures forall j :: 0 <= j < |AdminPlan(admins).emitted| ==>
              exists i :: 0 <= i < |admins| && !admins[i].isBot && AdminCandidate(admins[i]) == Some(AdminPlan(admins).emitted[j])
    ensures forall i :: 0 <= i < |admins| ==>
              (AdminCandidate(admins[i]).Some? <==> !admins[i].isBot)
    ensures forall i :: 0 <= i < |admins| && !admins[i].isBot ==> AdminCandidate(admins[i]).value.key in AdminPlan(admins).keys
  {
    var cs := AdminOffers(admins);
    var a := AdminPlan(admins).emitted;
    FoldProvenance(Plan([], {}), cs);
    FoldKeys(Plan([], {}), cs);
    forall j | 0 <= j < |a|
      ensures exists i :: 0 <= i < |admins| && !admins[i].isBot && AdminCandidate(admins[i]) == Some(a[j]) {
      var i :| 0 <= i < |cs| && cs[i] == Some(a[j]);
      assert !admins[i].isBot;
    }
    forall i | 0 <= i < |admins| && !admins[i].isBot ensures AdminCandidate(admins[i]).value.key in AdminPlan(admins).keys {
      assert cs[i] == AdminCandidate(admins[i]) && cs[i].Some?;
      assert cs[i].value.key in OfferedKeys(cs);
    }
  }

  /** The registry loop mentions only ids whose lookup succeeded with a membership status; a
      failed lookup or another status skips that id and the loop goes on with the rest. */
  lemma RegistryMembersOnly(admins: seq<User>, regs: seq<Registered>)
    ensures forall j :: |AdminPlan(admins).emitted| <= j < |MentionPlan(admins, regs).emitted| ==>
              exists i :: 0 <= i < |regs| && regs[i].lookup.Found? && regs[i].lookup.status in MemberStatuses
                && RegistryCandidate(regs[i]) == Some(MentionPlan(admins, regs).emitted[j])
    ensures forall i :: 0 <= i < |regs| && RegistryCandidate(regs[i]).Some? ==>
              RegistryCandidate(regs[i]).value.key in MentionPlan(admins, regs).keys
  {
    var cs := RegistryOffers(regs);
    var m := MentionPlan(admins, regs).emitted;
    FoldProvenance(AdminPlan(admins), cs);
    FoldKeys(AdminPlan(admins), cs);
    forall j | |AdminPlan(admins).emitted| <= j < |m|
      ensures exists i :: 0 <= i < |regs| && regs[i].lookup.Found? && regs[i].lookup.status in MemberStatuses
                && RegistryCandidate(regs[i]) == Some(m[j]) {
      var i :| 0 <= i < |cs| && cs[i] == Some(m[j]);
      RegistryCandidateWhen(regs[i]);
    }
    forall i | 0 <= i < |regs| && RegistryCandidate(regs[i]).Some?
      ensures RegistryCandidate(regs[i]).value.key in MentionPlan(admins, regs).keys {
      assert cs[i].Some?;
    }
  }

  /** Which registered ids the registry loop offers a mention for: a successful lookup with a
      membership status, and a username or a name that can be built. */
  lemma RegistryCandidateWhen(r: Registered)
    ensures RegistryCandidate(r).Some? <==>
              && r.lookup.Found?
              && r.lookup.status in MemberStatuses
              && (Truthy(r.lookup.user.username) || !(r.lookup.user.firstName.None? && Truthy(r.lookup.user.lastName)))
    ensures RegistryCandidate(r).Some? && !Truthy(r.lookup.user.username) ==>
              RegistryCandidate(r).value.key == IdKey(r.id)
  {
  }

  /** A registered member with the same key as a human administrator (the same cleaned
      username, or no username and the same id) is mentioned once, by the administrator loop. */
  lemma AdminAndRegisteredOnce(admins: seq<User>, regs: seq<Registered>, i: nat, k: nat)
    requires i < |admins| && !admins[i].isBot
    requires k < |regs| && RegistryCandidate(regs[k]).Some?
    requires RegistryCandidate(regs[k]).value.key == AdminCandidate(admins[i]).value.key
    ensures var m := MentionPlan(admins, regs).emitted;
      exists j :: 0 <= j < |AdminPlan(admins).emitted| && j < |m| && m[j].key == AdminCandidate(admins[i]).value.key
        && forall j' :: 0 <= j' < |m| && m[j'].key == m[j].key ==> j' == j
  {
    var key := AdminCandidate(admins[i]).value.key;
    var a := AdminPlan(admins);
    var m := MentionPlan(admins, regs).emitted;
    AdminsWithoutBots(admins);
    assert WellKeyed(Plan([], {}));
    FoldWellKeyed(Plan([], {}), AdminOffers(admins));
    MentionPlanKeys(admins, regs);
    AdminsFirst(admins, regs);
    assert key in KeysOf(a.emitted);
    var j :| 0 <= j < |a.emitted| && a.emitted[j].key == key;
    assert m[j] == a.emitted[j];
  }

  lemma TokensCons(c: Candidate, es: seq<Candidate>)
    ensures Tokens([c] + es) == [c.token] + Tokens(es)
  {
    var l := Tokens([c] + es);
    var r := [c.token] + Tokens(es);
    assert |l| == |r|;
    forall i | 0 <= i < |l| ensures l[i] == r[i] {
      assert ([c] + es)[i] == if i == 0 then c else es[i - 1];
    }
  }

  /** Taking tokens keeps a subsequence a subsequence. */
  lemma {:induction false} SubseqTokens(a: seq<Candidate>, b: seq<Candidate>)
    requires IsSubseq(a, b)
    ensures IsSubseq(Tokens(a), Tokens(b))
    decreases |b|
  {
    if a != [] {
      TokensCons(b[0], b[1..]);
      assert [b[0]] + b[1..] == b;
      if a[0] == b[0] && IsSubseq(a[1..], b[1..]) {
        SubseqTokens(a[1..], b[1..]);
        TokensCons(a[0], a[1..]);
        assert [a[0]] + a[1..] == a;
      } else {
        SubseqTokens(a, b[1..]);
      }
    }
  }

  lemma FoldTwo(p: Plan, x: Option<Candidate>, y: Option<Candidate>)
    ensures Fold(p, [x, y]) == Offer(Offer(p, x), y)
  {
    assert [x, y][..1] == [x] && [x][..0] == [];
    assert Fold(p, [x]) == Offer(Fold(p, []), x);
  }

  lemma SameKeyTwice(x: Candidate, y: Candidate)
    requires x.key == y.key
    ensures Tokens(Fold(Plan([], {}), [Some(x), Some(y)]).emitted) == [x.token]
  {
    FoldTwo(Plan([], {}), Some(x), Some(y));
    assert [x][..0] == [];
  }

  /** Two administrators with the same key: only the first is mentioned, even when the key
      comes from two different usernames. */
  lemma SameKeyOnce(a: User, b: User)
    requires AdminCandidate(a).Some? && AdminCandidate(b).Some?
    requires AdminCandidate(a).value.key == AdminCandidate(b).value.key
    ensures Tokens(MentionPlan([a, b], []).emitted) == [AdminCandidate(a).value.token]
  {
    var cs := AdminOffers([a, b]);
    assert cs == [AdminCandidate(a), AdminCandidate(b)];
    SameKeyTwice(AdminCandidate(a).value, AdminCandidate(b).value);
    assert RegistryOffers([]) == [];
  }

  // ---------------------------------------------------------------------------------------
  // create_safe_mention_text

  /** Python's `mentions[i:i+5]`. */
  function Batch(ms: seq<string>, i: nat): seq<string>
  {
    if i >= |ms| then [] else ms[i..Min(i + 5, |ms|)]
  }

  /** The lines `create_safe_mention_text` appends: groups of five tokens, each joined by
      spaces and ended by a newline. */
  function Lines(ms: seq<string>): seq<string>
    decreases |ms|
  {
    if ms == [] then [] else [JoinSpace(Batch(ms, 0)) + "\n"] + Lines(ms[Min(5, |ms|)..])
  }

  function Concat(ls: seq<string>): string
  {
    if ls == [] then "" else ls[0] + Concat(ls[1..])
  }

  /** `create_safe_mention_text`: the header, then the tokens five to a line. */
  method CreateSafeMentionText(mentionText: string, mentions: seq<string>) returns (result: string)
    ensures result == mentionText + Concat(Lines(mentions))
    ensures mentions == [] ==> result == mentionText
  {
    result := mentionText;
    if mentions != [] {
      var i := 0;
      while i < |mentions|
        invariant 0 <= i
        invariant result + Concat(Lines(mentions[Min(i, |mentions|)..])) == mentionText + Concat(Lines(mentions))
      {
        var batch := mentions[i..Min(i + 5, |mentions|)];
        var rest := mentions[i..];
        assert Batch(rest, 0) == batch;
        assert rest[Min(5, |rest|)..] == mentions[Min(i + 5, |mentions|)..];
        result := result + JoinSpace(batch) + "\n";
        i := i + 5;
      }
      assert mentions[Min(i, |mentions|)..] == [];
    }
  }

  /** There are ceil(n/5) lines. */
  lemma {:induction false} LinesCount(ms: seq<string>)
    ensures |Lines(ms)| == (|ms| + 4) / 5
    decreases |ms|
  {
    if ms != [] {
      LinesCount(ms[Min(5, |ms|)..]);
    }
  }

  /** Line k holds tokens 5k to 5k+4 (fewer on the last line), in order. */
  lemma {:induction false} LinesLayout(ms: seq<string>)
    ensures forall k :: 0 <= k < |Lines(ms)| ==>
              && 1 <= |Batch(ms, 5 * k)| <= 5
              && Batch(ms, 5 * k) == ms[5 * k..Min(5 * k + 5, |ms|)]
              && Lines(ms)[k] == JoinSpace(Batch(ms, 5 * k)) + "\n"
    decreases |ms|
  {
    LinesCount(ms);
    if ms != [] {
      var rest := ms[Min(5, |ms|)..];
      LinesLayout(rest);
      LinesCount(rest);
      forall k | 0 <= k < |Lines(ms)|
        ensures && 1 <= |Batch(ms, 5 * k)| <= 5
                && Batch(ms, 5 * k) == ms[5 * k..Min(5 * k + 5, |ms|)]
                && Lines(ms)[k] == JoinSpace(Batch(ms, 5 * k)) + "\n"
      {
        if k > 0 {
          assert |ms| > 5;
          assert 5 * k == 5 * (k - 1) + 5;
          assert Lines(ms)[k] == Lines(rest)[k - 1];
          assert Batch(rest, 5 * (k - 1)) == Batch(ms, 5 * k);
        }
      }
    }
  }

  /** The lines hold the tokens in order: joining their groups gives the token list back. */
  lemma {:induction false} LinesCoverTokens(ms: seq<string>)
    ensures Flat(Groups(ms)) == ms
    ensures |Groups(ms)| == |Lines(ms)|
    ensures forall k :: 0 <= k < |Groups(ms)| ==> Lines(ms)[k] == JoinSpace(Groups(ms)[k]) + "\n"
    decreases |ms|
  {
    if ms != [] {
      var n := Min(5, |ms|);
      LinesCoverTokens(ms[n..]);
      assert ms[..n] + ms[n..] == ms;
    }
  }

  /** The groups of five that `create_safe_mention_text` joins. */
  function Groups(ms: seq<string>): seq<seq<string>>
    decreases |ms|
  {
    if ms == [] then [] else [Batch(ms, 0)] + Groups(ms[Min(5, |ms|)..])
  }

  function Flat(gs: seq<seq<string>>): seq<string>
  {
    if gs == [] then [] else gs[0] + Flat(gs[1..])
  }

  // ---------------------------------------------------------------------------------------
  // What the commands send

  /** A message the command hands to `safe_send_message` (to the chat) or to `safe_reply_to`,
      both in Markdown. */
  datatype Outgoing = ToChat(text: string) | AsReply(text: string)

  const NoMembersReply: string := "❌ No se pudieron obtener los miembros del grupo."
  const NoAdminsReply: string := "❌ No se encontraron administradores."

  /** `/all`, `/allbug` and `/allerror` once the chat has been queried: the header (which the
      three commands word differently) with the mentions, or an apology when there are none. */
  method MentionAll(header: string, admins: seq<User>, regs: seq<Registered>) returns (out: Outgoing)
    ensures var ts := Tokens(MentionPlan(admins, regs).emitted);
      out == if ts == [] then AsReply(NoMembersReply) else ToChat(header + Concat(Lines(ts)))
  {
    var mentions, mentioned := BuildMentions(admins, regs);
    if mentions != [] {
      var text := CreateSafeMentionText(header, mentions);
      out := ToChat(text);
    } else {
      out := AsReply(NoMembersReply);
    }
  }

  /** The administrator loop of `mention_admins`: every human administrator, with no key set. */
  method AdminMentions(admins: seq<User>) returns (mentions: seq<string>)
    ensures mentions == Tokens(Somes(AdminOffers(admins)))
  {
    mentions := [];
    var i := 0;
    while i < |admins|
      invariant 0 <= i <= |admins|
      invariant mentions == Tokens(Somes(AdminOffers(admins[..i])))
    {
      var u := admins[i];
      var cs := AdminOffers(admins[..i + 1]);
      assert cs[..i] == AdminOffers(admins[..i]);
      assert cs[i] == AdminCandidate(u);
      SomesSnocTokens(cs);
      if !u.isBot && Truthy(u.username) {
        mentions := mentions + ["@" + CleanNameForMention(u.username.value)];
      } else if !u.isBot {
        var fullName := CleanNameForMention(if Truthy(u.firstName) then u.firstName.value else DefaultName);
        if Truthy(u.lastName) {
          fullName := fullName + " " + CleanNameForMention(u.lastName.value);
        }
        assert fullName == AdminName(u);
        mentions := mentions + [Link(fullName, u.id)];
      }
      i := i + 1;
    }
    assert admins[..i] == admins;
  }

  lemma SomesSnocTokens(cs: seq<Option<Candidate>>)
    requires cs != []
    ensures Tokens(Somes(cs)) ==
              Tokens(Somes(cs[..|cs| - 1])) + (if cs[|cs| - 1].Some? then [cs[|cs| - 1].value.token] else [])
  {
    var s := Somes(cs[..|cs| - 1]);
    if cs[|cs| - 1].Some? {
      assert (s + [cs[|cs| - 1].value])[..|s|] == s;
    } else {
      assert s + [] == s;
    }
  }

  /** `/admins` once the administrators are known: the header and the mentions joined by
      spaces, or a reply that there are none. */
  method MentionAdmins(header: string, admins: seq<User>) returns (out: Outgoing)
    ensures var ts := Tokens(Somes(AdminOffers(admins)));
      out == if ts == [] then AsReply(NoAdminsReply) else ToChat(header + JoinSpace(ts))
  {
    var mentions := AdminMentions(admins);
    if mentions != [] {
      out := ToChat(header + JoinSpace(mentions));
    } else {
      out := AsReply(NoAdminsReply);
    }
  }

  /** `/admins` mentions one token per human administrator. */
  lemma {:induction false} AdminMentionsCount(admins: seq<User>)
    ensures |Somes(AdminOffers(admins))| == Humans(admins)
  {
    if admins != [] {
      var init := admins[..|admins| - 1];
      AdminMentionsCount(init);
      assert AdminOffers(admins)[..|admins| - 1] == AdminOffers(init);
    }
  }

  function Humans(admins: seq<User>): nat
  {
    if admins == [] then 0 else Humans(admins[..|admins| - 1]) + (if admins[|admins| - 1].isBot then 0 else 1)
  }

  /** The administrator part of `/all` is the `/admins` list with repeated keys dropped. */
  lemma AllAdminsWithinAdmins(admins: seq<User>)
    ensures IsSubseq(Tokens(AdminPlan(admins).emitted), Tokens(Somes(AdminOffers(admins))))
  {
    AdminsFirst(admins, []);
    SubseqTokens(AdminPlan(admins).emitted, Somes(AdminOffers(admins)));
  }

  lemma SomesTwo(x: Candidate, y: Candidate)
    ensures Somes([Some(x), Some(y)]) == [x, y]
  {
    assert [Some(x), Some(y)][..1] == [Some(x)] && [Some(x)][..0] == [];
    assert Somes([Some(x)]) == Somes([]) + [x];
  }

  /** `/admins` does not drop repeats: a human administrator listed twice is mentioned twice,
      while `/all` mentions them once. */
  lemma AdminsRepeat(u: User)
    requires !u.isBot
    ensures var t := AdminCandidate(u).value.token;
      && Tokens(Somes(AdminOffers([u, u]))) == [t, t]
      && Tokens(MentionPlan([u, u], []).emitted) == [t]
  {
    var c := AdminCandidate(u).value;
    assert AdminOffers([u, u]) == [Some(c), Some(c)];
    SomesTwo(c, c);
    assert Tokens([c, c]) == [c.token, c.token];
    SameKeyOnce(u, u);
  }
}
