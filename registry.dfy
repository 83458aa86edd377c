/** The registry of users who asked for mentions: the `registered_users` table and the
    `user_registration_log` table as the bot sees them, and the in-memory set
    `registered_users` that `/register` and `/unregister` keep in step with the table. Which
    database call raises, if any, is an input. */
module Registry {
  import opened Strings
  import opened Sanitize
  import opened Transport

  /** A row of `registered_users`, without its key. */
  datatype Profile = Profile(username: Option<string>, firstName: Option<string>, lastName: Option<string>)

  /** A row of `user_registration_log`. */
  datatype Event = Event(userId: int, action: string, details: string)

  /** The two tables. */
  datatype Db = Db(users: map<int, Profile>, log: seq<Event>)

  /** Which database call raises: the first read, the write, the log insert (which
      `log_user_action` swallows), or none. */
  datatype Fault = NoFault | ReadFails | WriteFails | LogFails

  /** The outcome of a database helper: its result and the tables afterwards. */
  datatype Written = Written(ok: bool, db: Db)

  const Registro := "REGISTRO"
  const Actualizacion := "ACTUALIZACION"
  const Eliminacion := "ELIMINACION"

  /** The `details` of a log row: `Username: {username}, Nombre: {first_name} {last_name}`. */
  function Details(p: Profile): string
  {
    "Username: " + Show(p.username) + ", Nombre: " + Show(p.firstName) + " " + Show(p.lastName)
  }

  /** `load_registered_users()`: the ids of the table, or none if the read fails. */
  function LoadRegistered(db: Db, fails: bool): (ids: set<int>)
    ensures ids <= db.users.Keys
    ensures !fails ==> ids == db.users.Keys
  {
    if fails then {} else db.users.Keys
  }

  /** `add_registered_user(user_id, username, first_name, last_name)`: insert a new row or
      update the existing one, then log REGISTRO or ACTUALIZACION. */
  function AddUser(db: Db, id: int, p: Profile, fault: Fault): Written
  {
    if fault == ReadFails || fault == WriteFails then Written(false, db)
    else
      var action := if id in db.users then Actualizacion else Registro;
      var log := if fault == LogFails then db.log else db.log + [Event(id, action, Details(p))];
      Written(true, Db(db.users[id := p], log))
  }

  /** `remove_registered_user(user_id)`: read the row, delete it, and log ELIMINACION if there
      was one. An absent id is removed successfully too. */
  function RemoveUser(db: Db, id: int, fault: Fault): Written
  {
    if fault == ReadFails || fault == WriteFails then Written(false, db)
    else
      var log := if id in db.users && fault != LogFails then db.log + [Event(id, Eliminacion, Details(db.users[id]))]
                 else db.log;
      Written(true, Db(db.users - {id}, log))
  }

  /** What a handler answers. */
  datatype Notice = AlreadyRegistered | Welcome(id: int, profile: Profile) | RegisterFailed
                  | NotRegistered | Unregistered | UnregisterFailed

  /** A reply sent with `safe_reply_to`. */
  datatype Reply = Reply(text: string, mode: Option<string>)

  const WelcomeHead := "✅ ¡Registro exitoso!\n\n"
  const WelcomeTail := "Ahora recibirás menciones especiales cuando uses los comandos de alerta."

  /** How the welcome names the user: the @username if there is one, otherwise the first
      name or "Usuario". */
  function WhoLine(p: Profile): string
  {
    if Truthy(p.username) then "Usuario: @" + p.username.value + "\n"
    else "Nombre: " + (if Truthy(p.firstName) then p.firstName.value else DefaultName) + "\n"
  }

  function IdLine(id: int): string
  {
    "ID: " + IntToString(id) + "\n\n"
  }

  /** The text of each answer; the welcome alone is sent as plain text. */
  function Text(n: Notice): Reply
  {
    match n
    case AlreadyRegistered => Reply("✅ Ya estás registrado para recibir menciones.", Markdown)
    case Welcome(id, p) => Reply(WelcomeHead + WhoLine(p) + IdLine(id) + WelcomeTail, None)
    case RegisterFailed => Reply("❌ Ocurrió un error al registrarte en la base de datos. Intenta de nuevo.", Markdown)
    case NotRegistered => Reply("❌ No estás registrado.", Markdown)
    case Unregistered => Reply("✅ Te has desregistrado de las menciones.", Markdown)
    case UnregisterFailed => Reply("❌ Ocurrió un error al desregistrarte de la base de datos. Intenta de nuevo.", Markdown)
  }

  /** The bot's registration state: the tables and the in-memory set. */
  datatype State = State(db: Db, registered: set<int>)

  /** What a handler does: the new state and its reply. */
  datatype Handled = Handled(state: State, notice: Notice)

  /** The `/register` handler: an id already in the set is answered without touching the
      database; otherwise the id joins the set only if the row was written. */
  function Register(st: State, id: int, p: Profile, fault: Fault): Handled
  {
    if id in st.registered then Handled(st, AlreadyRegistered)
    else
      var w := AddUser(st.db, id, p, fault);
      if w.ok then Handled(State(w.db, st.registered + {id}), Welcome(id, p))
      else Handled(st, RegisterFailed)
  }

  /** The `/unregister` handler: an id not in the set is refused; otherwise the id leaves the
      set only if the row was deleted. */
  function Unregister(st: State, id: int, fault: Fault): Handled
  {
    if id !in st.registered then Handled(st, NotRegistered)
    else
      var w := RemoveUser(st.db, id, fault);
      if w.ok then Handled(State(w.db, st.registered - {id}), Unregistered)
      else Handled(st, UnregisterFailed)
  }

  /** The in-memory set names only users the table has. */
  predicate Consistent(st: State)
  {
    st.registered <= st.db.users.Keys
  }

  /** The registry as the bot holds it. */
  class Registrations {
    var users: map<int, Profile>
    var log: seq<Event>
    var registered: set<int>

    function Tables(): Db
      reads this
    {
      Db(users, log)
    }

    ghost predicate Valid()
      reads this
    {
      Consistent(State(Tables(), registered))
    }

    /** Start-up: `registered_users = load_registered_users()`. */
    constructor (table: Db, loadFails: bool)
      ensures Tables() == table && registered == LoadRegistered(table, loadFails)
      ensures Valid()
    {
      users := table.users;
      log := table.log;
      registered := if loadFails then {} else table.users.Keys;
    }

    /** `log_user_action`: an insert whose failure is only logged. */
    method LogUserAction(id: int, action: string, details: string, fails: bool)
      modifies this
      ensures users == old(users) && registered == old(registered)
      ensures log == if fails then old(log) else old(log) + [Event(id, action, details)]
    {
      if !fails {
        log := log + [Event(id, action, details)];
      }
    }

    method AddRegisteredUser(id: int, p: Profile, fault: Fault) returns (ok: bool)
      modifies this
      ensures Written(ok, Tables()) == AddUser(old(Tables()), id, p, fault)
      ensures registered == old(registered)
    {
      if fault == ReadFails {
        return false;
      }
      var isNew := id !in users;
      if fault == WriteFails {
        return false;
      }
      users := users[id := p];
      var action := if isNew then Registro else Actualizacion;
      LogUserAction(id, action, Details(p), fault == LogFails);
      return true;
    }

    method RemoveRegisteredUser(id: int, fault: Fault) returns (ok: bool)
      modifies this
      ensures Written(ok, Tables()) == RemoveUser(old(Tables()), id, fault)
      ensures registered == old(registered)
    {
      if fault == ReadFails {
        return false;
      }
      var info := if id in users then Some(users[id]) else None;
      if fault == WriteFails {
        return false;
      }
      users := users - {id};
      if info.Some? {
        LogUserAction(id, Eliminacion, Details(info.value), fault == LogFails);
      }
      return true;
    }

    /** The `/register` handler for the sender `id` with profile `p`. */
    method RegisterUser(id: int, p: Profile, fault: Fault) returns (reply: Reply)
      requires Valid()
      modifies this
      ensures var h := Register(old(State(Tables(), registered)), id, p, fault);
        State(Tables(), registered) == h.state && reply == Text(h.notice)
      ensures Valid()
    {
      if id in registered {
        return Text(AlreadyRegistered);
      }
      var ok := AddRegisteredUser(id, p, fault);
      if ok {
        registered := registered + {id};
        reply := Text(Welcome(id, p));
      } else {
        reply := Text(RegisterFailed);
      }
      RegisterConsistent(old(State(Tables(), registered)), id, p, fault);
    }

    /** The `/unregister` handler for the sender `id`. */
    method UnregisterUser(id: int, fault: Fault) returns (reply: Reply)
      requires Valid()
      modifies this
      ensures var h := Unregister(old(State(Tables(), registered)), id, fault);
        State(Tables(), registered) == h.state && reply == Text(h.notice)
      ensures Valid()
    {
      if id !in registered {
        return Text(NotRegistered);
      }
      var ok := RemoveRegisteredUser(id, fault);
      if ok {
        registered := registered - {id};
        reply := Text(Unregistered);
      } else {
        reply := Text(UnregisterFailed);
      }
      UnregisterConsistent(old(State(Tables(), registered)), id, fault);
    }
  }

  // ---------------------------------------------------------------------------------------
  // Properties of the database helpers

  /** A successful add leaves exactly the given profile under the id, every other row as it
      was, and logs REGISTRO for a new id and ACTUALIZACION for a known one; a failed add
      changes nothing. Only the read and the write can make it fail. */
  lemma AddUserSpec(db: Db, id: int, p: Profile, fault: Fault)
    ensures var r := AddUser(db, id, p, fault);
      && (r.ok <==> fault != ReadFails && fault != WriteFails)
      && (!r.ok ==> r.db == db)
      && (r.ok ==> id in r.db.users && r.db.users[id] == p && r.db.users.Keys == db.users.Keys + {id})
      && (forall k :: k in db.users && k != id ==> k in r.db.users && r.db.users[k] == db.users[k])
      && (r.ok && fault != LogFails ==>
            r.db.log == db.log + [Event(id, if id in db.users then Actualizacion else Registro, Details(p))])
      && (fault == LogFails ==> r.db.log == db.log)
  {
  }

  /** Adding the same profile twice leaves the table as one add does; the second add logs an
      update. */
  lemma AddTwice(db: Db, id: int, p: Profile)
    ensures var once := AddUser(db, id, p, NoFault).db;
      var twice := AddUser(once, id, p, NoFault).db;
      && twice.users == once.users
      && twice.log == once.log + [Event(id, Actualizacion, Details(p))]
  {
    var once := AddUser(db, id, p, NoFault).db;
    assert id in once.users;
  }

  /** Removing an id leaves every other row; it logs ELIMINACION only for an id the table had,
      and an absent id is "removed" successfully with nothing changed. */
  lemma RemoveUserSpec(db: Db, id: int, fault: Fault)
    ensures var r := RemoveUser(db, id, fault);
      && (r.ok <==> fault != ReadFails && fault != WriteFails)
      && (!r.ok ==> r.db == db)
      && (r.ok ==> r.db.users.Keys == db.users.Keys - {id})
      && (forall k :: k in r.db.users ==> k in db.users && r.db.users[k] == db.users[k])
      && (r.ok && id !in db.users ==> r.db == db)
      && (|r.db.log| == |db.log| + 1 <==> r.ok && id in db.users && fault != LogFails)
  {
    var r := RemoveUser(db, id, fault);
    if r.ok && id !in db.users {
      assert r.db.users == db.users;
    }
  }

  /** Adding a new id and removing it again restores the table; the log gains REGISTRO and
      ELIMINACION, both with the new profile. */
  lemma AddThenRemove(db: Db, id: int, p: Profile)
    requires id !in db.users
    ensures var added := AddUser(db, id, p, NoFault).db;
      var removed := RemoveUser(added, id, NoFault).db;
      && removed.users == db.users
      && removed.log == db.log + [Event(id, Registro, Details(p)), Event(id, Eliminacion, Details(p))]
  {
    var added := AddUser(db, id, p, NoFault).db;
    assert added.users - {id} == db.users;
  }

  /** No helper ever erases or rewrites a log row: the log only grows. */
  lemma LogOnlyGrows(db: Db, id: int, p: Profile, fault: Fault)
    ensures var a := AddUser(db, id, p, fault).db.log;
      |a| >= |db.log| && a[..|db.log|] == db.log
    ensures var r := RemoveUser(db, id, fault).db.log;
      |r| >= |db.log| && r[..|db.log|] == db.log
  {
  }

  // ---------------------------------------------------------------------------------------
  // Properties of the handlers

  /** The keys of the table after each helper. */
  lemma AddUserKeys(db: Db, id: int, p: Profile, fault: Fault)
    ensures var r := AddUser(db, id, p, fault);
      r.db.users.Keys == if r.ok then db.users.Keys + {id} else db.users.Keys
  {
  }

  lemma RemoveUserKeys(db: Db, id: int, fault: Fault)
    ensures var r := RemoveUser(db, id, fault);
      r.db.users.Keys == if r.ok then db.users.Keys - {id} else db.users.Keys
  {
  }

  /** Neither handler can make the in-memory set name a user the table lacks, whatever call
      fails. */
  lemma RegisterConsistent(st: State, id: int, p: Profile, fault: Fault)
    requires Consistent(st)
    ensures Consistent(Register(st, id, p, fault).state)
  {
    AddUserKeys(st.db, id, p, fault);
  }

  lemma UnregisterConsistent(st: State, id: int, fault: Fault)
    requires Consistent(st)
    ensures Consistent(Unregister(st, id, fault).state)
  {
    RemoveUserKeys(st.db, id, fault);
  }

  /** The set loaded at start-up is consistent with the table. */
  lemma LoadConsistent(db: Db, fails: bool)
    ensures Consistent(State(db, LoadRegistered(db, fails)))
  {
  }

  /** `/register` puts the id in the set exactly when it was not there and the write
      succeeded; the reply says which of the three cases happened. */
  lemma RegisterOutcome(st: State, id: int, p: Profile, fault: Fault)
    ensures var h := Register(st, id, p, fault);
      && (id in h.state.registered <==> (id in st.registered || (fault != ReadFails && fault != WriteFails)))
      && h.state.registered - {id} == st.registered - {id}
      && (id in st.registered ==> h == Handled(st, AlreadyRegistered))
      && (id !in st.registered && id in h.state.registered ==> h.notice == Welcome(id, p) && h.state.db.users[id] == p)
      && (id !in h.state.registered ==> h == Handled(st, RegisterFailed))
  {
  }

  /** A registered user who changed their profile is not updated by `/register`: the table
      keeps the old row. */
  lemma RegisterKeepsStaleProfile(st: State, id: int, p: Profile, fault: Fault)
    requires id in st.registered
    ensures Register(st, id, p, fault).state.db == st.db
  {
  }

  /** `/unregister` takes the id out of the set exactly when it was there and the removal
      succeeded. */
  lemma UnregisterOutcome(st: State, id: int, fault: Fault)
    ensures var h := Unregister(st, id, fault);
      && (id !in h.state.registered <==> (id !in st.registered || (fault != ReadFails && fault != WriteFails)))
      && h.state.registered + {id} == st.registered + {id}
      && (id !in st.registered ==> h == Handled(st, NotRegistered))
      && (id in st.registered && id !in h.state.registered ==> h.notice == Unregistered && id !in h.state.db.users)
      && (id in h.state.registered ==> h == Handled(st, UnregisterFailed))
  {
  }

  /** Registering a new user and unregistering them, with no failure, restores the set and
      the table. */
  lemma RegisterThenUnregister(st: State, id: int, p: Profile)
    requires Consistent(st) && id !in st.db.users
    ensures var after := Unregister(Register(st, id, p, NoFault).state, id, NoFault).state;
      after.registered == st.registered && after.db.users == st.db.users
  {
    assert id !in st.registered;
    AddThenRemove(st.db, id, p);
    assert st.registered + {id} - {id} == st.registered;
  }

  /** The welcome is plain text and opens with its heading and the user's name line. */
  lemma WelcomeName(id: int, p: Profile)
    ensures Text(Welcome(id, p)).mode == None
    ensures WelcomeHead + WhoLine(p) <= Text(Welcome(id, p)).text
  {
    assert Text(Welcome(id, p)).text == WelcomeHead + WhoLine(p) + IdLine(id) + WelcomeTail;
    OpensWith(WelcomeHead, WhoLine(p), IdLine(id), WelcomeTail);
  }

  /** The name line is "Usuario: @" and the username when there is one, otherwise "Nombre: "
      and the first name or "Usuario". */
  lemma WhoLineName(p: Profile)
    ensures var w := WhoLine(p);
      && |w| > 0 && w[|w| - 1] == '\n'
      && (Truthy(p.username) ==> |w| > 10 && w[..10] == "Usuario: @" && w[10..|w| - 1] == p.username.value)
      && (!Truthy(p.username) ==>
            |w| > 8 && w[..8] == "Nombre: "
            && w[8..|w| - 1] == (if Truthy(p.firstName) then p.firstName.value else DefaultName))
  {
    if Truthy(p.username) {
      Slices("Usuario: @", p.username.value, "\n");
    } else {
      Slices("Nombre: ", if Truthy(p.firstName) then p.firstName.value else DefaultName, "\n");
    }
  }

  lemma OpensWith(a: string, b: string, c: string, d: string)
    ensures a + b <= a + b + c + d
  {
    assert a + b + c + d == (a + b) + (c + d);
  }

  /** The three parts of a concatenation can be cut out again. */
  lemma Slices(a: string, b: string, c: string)
    ensures var s := a + b + c;
      |s| == |a| + |b| + |c| && s[..|a|] == a && s[|a|..|a| + |b|] == b && s[|a| + |b|..] == c
  {
  }
}
