/** Shared vocabulary of the custom mutators: their arguments, the single
    table command a successful mutator issues (instead of a `tx.mutate`
    call) and the errors they throw. */
module Mutations {
  import opened Wrappers

  /** Longest title or name a mutator accepts. */
  const MaxLength: nat := 100

  datatype AuthData = AuthData(sub: string)

  datatype TodoArgs = TodoArgs(id: string, title: string, completed: bool, typeId: string)

  datatype TypeArgs = TypeArgs(id: string, name: string)

  /** The `todo` row `tx.query.todo.where('id', id).one()` may find. */
  datatype TodoRow = TodoRow(id: string, title: string, completed: bool, typeId: string)

  datatype Command =
    | TodoInsert(todo: TodoArgs)
    | TodoUpdate(todo: TodoArgs)
    | TodoSetCompleted(id: string, completed: bool)
    | TodoDelete(id: string)
    | TypeInsert(ty: TypeArgs)
    | TypeUpdate(ty: TypeArgs)
    | TypeDelete(id: string)

  datatype Error = NotAuthorized | TitleTooLong | NameTooLong

  /** A mutator's effect: exactly one command, or a thrown error and none. */
  type Outcome = Result<Command, Error>

  /** `!authData.sub`: a missing (empty) subject is not authorized. */
  predicate Authorized(auth: AuthData)
  {
    auth.sub != ""
  }

  predicate FitsLength(s: string)
  {
    |s| <= MaxLength
  }

  /** `toggle_complete`: writes the negation of the current row's
      `completed`, and `true` when there is no such row
      (`!currentTodo?.completed` with `!undefined === true`). */
  function Toggle(id: string, current: Option<TodoRow>): (r: Outcome)
    ensures r.Success? && r.value.TodoSetCompleted? && r.value.id == id
    ensures current.None? ==> r.value.completed
    ensures current.Some? ==> r.value.completed != current.value.completed
  {
    Success(TodoSetCompleted(id, match current case Some(row) => !row.completed case None => true))
  }
}

/** `createMutators(authData)`: the client mutators with authorization and
    length guards. */
module ClientMutators {
  import opened Wrappers
  import opened Mutations

  /** `todo.create`: authorization first, then the title length. */
  function TodoCreate(auth: AuthData, a: TodoArgs): (r: Outcome)
    ensures r.Success? <==> Authorized(auth) && FitsLength(a.title)
    ensures !Authorized(auth) ==> r == Failure(NotAuthorized)
    ensures Authorized(auth) && !FitsLength(a.title) ==> r == Failure(TitleTooLong)
    ensures r.Success? ==> r.value == TodoInsert(a)
  {
    if auth.sub == "" then Failure(NotAuthorized)
    else if |a.title| > 100 then Failure(TitleTooLong)
    else Success(TodoInsert(a))
  }

  /** `todo.edit`: the same guards as `todo.create`, issuing an update. */
  function TodoEdit(auth: AuthData, a: TodoArgs): (r: Outcome)
    ensures r.Success? <==> Authorized(auth) && FitsLength(a.title)
    ensures !Authorized(auth) ==> r == Failure(NotAuthorized)
    ensures Authorized(auth) && !FitsLength(a.title) ==> r == Failure(TitleTooLong)
    ensures r.Success? ==> r.value == TodoUpdate(a)
  {
    if auth.sub == "" then Failure(NotAuthorized)
    else if |a.title| > 100 then Failure(TitleTooLong)
    else Success(TodoUpdate(a))
  }

  /** `todo.remove`: authorization only, then one delete of `id`. */
  function TodoRemove(auth: AuthData, id: string): (r: Outcome)
    ensures r.Success? <==> Authorized(auth)
    ensures !Authorized(auth) ==> r == Failure(NotAuthorized)
    ensures r.Success? ==> r.value == TodoDelete(id)
  {
    if auth.sub == "" then Failure(NotAuthorized) else Success(TodoDelete(id))
  }

  /** `type.create`: authorization first, then the name length. */
  function TypeCreate(auth: AuthData, a: TypeArgs): (r: Outcome)
    ensures r.Success? <==> Authorized(auth) && FitsLength(a.name)
    ensures !Authorized(auth) ==> r == Failure(NotAuthorized)
    ensures Authorized(auth) && !FitsLength(a.name) ==> r == Failure(NameTooLong)
    ensures r.Success? ==> r.value == TypeInsert(a)
  {
    if auth.sub == "" then Failure(NotAuthorized)
    else if |a.name| > 100 then Failure(NameTooLong)
    else Success(TypeInsert(a))
  }

  /** `type.edit`: the name length only, no authorization check. */
  function TypeEdit(a: TypeArgs): (r: Outcome)
    ensures r.Success? <==> FitsLength(a.name)
    ensures !FitsLength(a.name) ==> r == Failure(NameTooLong)
    ensures r.Success? ==> r.value == TypeUpdate(a)
  {
    if |a.name| > 100 then Failure(NameTooLong) else Success(TypeUpdate(a))
  }

  /** `type.remove`: never fails. */
  function TypeRemove(id: string): (r: Outcome)
    ensures r == Success(TypeDelete(id))
  {
    Success(TypeDelete(id))
  }

  /** The client mutators by name, with their arguments. */
  datatype Call =
    | TodoCreateCall(todo: TodoArgs)
    | TodoEditCall(todo: TodoArgs)
    | TodoRemoveCall(id: string)
    | ToggleCompleteCall(id: string)
    | TypeCreateCall(ty: TypeArgs)
    | TypeEditCall(ty: TypeArgs)
    | TypeRemoveCall(id: string)

  /** The mutator's name in the object `createMutators` returns. */
  function Name(c: Call): (r: string)
  {
    match c
    case TodoCreateCall(_) => "todo.create"
    case TodoEditCall(_) => "todo.edit"
    case TodoRemoveCall(_) => "todo.remove"
    case ToggleCompleteCall(_) => "todo.toggle_complete"
    case TypeCreateCall(_) => "type.create"
    case TypeEditCall(_) => "type.edit"
    case TypeRemoveCall(_) => "type.remove"
  }

  /** Runs one client mutator; `current` is what `toggle_complete` reads. */
  function Run(auth: AuthData, c: Call, current: Option<TodoRow>): (r: Outcome)
  {
    match c
    case TodoCreateCall(a) => TodoCreate(auth, a)
    case TodoEditCall(a) => TodoEdit(auth, a)
    case TodoRemoveCall(id) => TodoRemove(auth, id)
    case ToggleCompleteCall(id) => Toggle(id, current)
    case TypeCreateCall(a) => TypeCreate(auth, a)
    case TypeEditCall(a) => TypeEdit(a)
    case TypeRemoveCall(id) => TypeRemove(id)
  }

  /** A title or name of exactly the limit is accepted; one more character
      is rejected, even for the same authorized user. */
  lemma LengthBoundary(auth: AuthData, a: TodoArgs, t: TypeArgs)
    requires Authorized(auth) && |a.title| == MaxLength && |t.name| == MaxLength
    ensures TodoCreate(auth, a).Success? && TodoEdit(auth, a).Success? && TypeCreate(auth, t).Success?
    ensures TodoCreate(auth, a.(title := a.title + "x")) == Failure(TitleTooLong)
    ensures TypeCreate(auth, t.(name := t.name + "x")) == Failure(NameTooLong)
  {
  }

  /** Every failure of a client mutator is a guard it states: authorization
      or length; `toggle_complete` and `type.remove` never fail. */
  lemma FailuresAreGuards(auth: AuthData, c: Call, current: Option<TodoRow>)
    ensures Run(auth, c, current).Failure? ==>
              (!Authorized(auth) && Run(auth, c, current).error == NotAuthorized)
              || Run(auth, c, current).error in {TitleTooLong, NameTooLong}
    ensures c.ToggleCompleteCall? || c.TypeRemoveCall? ==> Run(auth, c, current).Success?
    ensures Run(auth, c, current).Failure? && Run(auth, c, current).error == NotAuthorized ==>
              c.TodoCreateCall? || c.TodoEditCall? || c.TodoRemoveCall? || c.TypeCreateCall?
  {
  }
}

/** `createMutators()` of the API routes: the same table commands with
    length guards only, and no authorization anywhere. */
module LengthOnlyMutators {
  import opened Wrappers
  import opened Mutations
  import ClientMutators

  /** `type.create`. */
  function TypeCreate(a: TypeArgs): (r: Outcome)
    ensures r.Success? <==> FitsLength(a.name)
    ensures !FitsLength(a.name) ==> r == Failure(NameTooLong)
    ensures r.Success? ==> r.value == TypeInsert(a)
  {
    if |a.name| > 100 then Failure(NameTooLong) else Success(TypeInsert(a))
  }

  /** `type.update`. */
  function TypeUpdate(a: TypeArgs): (r: Outcome)
    ensures r.Success? <==> FitsLength(a.name)
    ensures !FitsLength(a.name) ==> r == Failure(NameTooLong)
    ensures r.Success? ==> r.value == Mutations.TypeUpdate(a)
  {
    if |a.name| > 100 then Failure(NameTooLong) else Success(Mutations.TypeUpdate(a))
  }

  /** `type.delete`: never fails. */
  function TypeDelete(id: string): (r: Outcome)
    ensures r == Success(Mutations.TypeDelete(id))
  {
    Success(Mutations.TypeDelete(id))
  }

  /** `todo.create`. */
  function TodoCreate(a: TodoArgs): (r: Outcome)
    ensures r.Success? <==> FitsLength(a.title)
    ensures !FitsLength(a.title) ==> r == Failure(TitleTooLong)
    ensures r.Success? ==> r.value == TodoInsert(a)
  {
    if |a.title| > 100 then Failure(TitleTooLong) else Success(TodoInsert(a))
  }

  /** `todo.update`. */
  function TodoUpdate(a: TodoArgs): (r: Outcome)
    ensures r.Success? <==> FitsLength(a.title)
    ensures !FitsLength(a.title) ==> r == Failure(TitleTooLong)
    ensures r.Success? ==> r.value == Mutations.TodoUpdate(a)
  {
    if |a.title| > 100 then Failure(TitleTooLong) else Success(Mutations.TodoUpdate(a))
  }

  /** `todo.delete`: never fails. */
  function TodoDelete(id: string): (r: Outcome)
    ensures r == Success(Mutations.TodoDelete(id))
  {
    Success(Mutations.TodoDelete(id))
  }

  datatype Call =
    | TypeCreateCall(ty: TypeArgs)
    | TypeUpdateCall(ty: TypeArgs)
    | TypeDeleteCall(id: string)
    | TodoCreateCall(todo: TodoArgs)
    | TodoUpdateCall(todo: TodoArgs)
    | TodoDeleteCall(id: string)
    | ToggleCompleteCall(id: string)

  function Run(c: Call, current: Option<TodoRow>): (r: Outcome)
  {
    match c
    case TypeCreateCall(a) => TypeCreate(a)
    case TypeUpdateCall(a) => TypeUpdate(a)
    case TypeDeleteCall(id) => TypeDelete(id)
    case TodoCreateCall(a) => TodoCreate(a)
    case TodoUpdateCall(a) => TodoUpdate(a)
    case TodoDeleteCall(id) => TodoDelete(id)
    case ToggleCompleteCall(id) => Toggle(id, current)
  }

  /** No mutator here performs an authorization check: none ever fails with
      "Not Authorized", and the deletes and the toggle never fail at all. */
  lemma NeverUnauthorized(c: Call, current: Option<TodoRow>)
    ensures Run(c, current) != Failure(NotAuthorized)
    ensures c.TypeDeleteCall? || c.TodoDeleteCall? || c.ToggleCompleteCall? ==> Run(c, current).Success?
  {
  }

  /** For an authorized subject the client mutators agree with these:
      `todo.create`/`todo.edit` with `todo.create`/`todo.update`,
      `type.create`/`type.edit` with `type.create`/`type.update`; and
      `type.remove`/`type.delete` and the toggles agree for anyone. */
  lemma AuthorizedClientAgrees(auth: AuthData, a: TodoArgs, t: TypeArgs, id: string, current: Option<TodoRow>)
    ensures Authorized(auth) ==>
              && ClientMutators.TodoCreate(auth, a) == TodoCreate(a)
              && ClientMutators.TodoEdit(auth, a) == TodoUpdate(a)
              && ClientMutators.TypeCreate(auth, t) == TypeCreate(t)
    ensures ClientMutators.TypeEdit(t) == TypeUpdate(t)
    ensures ClientMutators.TypeRemove(id) == TypeDelete(id)
    ensures Authorized(auth) ==> ClientMutators.TodoRemove(auth, id) == TodoDelete(id)
    ensures ClientMutators.Run(auth, ClientMutators.ToggleCompleteCall(id), current)
            == Run(ToggleCompleteCall(id), current)
  {
  }
}

/** `createServerMutators(clientMutators, authData)`: every client mutator
    carried over, plus a server-only `todo.delete` guarded by `canDelete`. */
module ServerMutators {
  import opened Wrappers
  import opened Mutations
  import ClientMutators

  /** The subject allowed to delete on the server. */
  const DeleterSub := "123456"

  /** `canDelete(tx)`: holds for the one privileged subject; the
      transaction is not consulted. */
  function CanDelete(auth: Option<AuthData>): (r: bool)
    ensures r <==> auth == Some(AuthData(DeleterSub))
  {
    auth.Some? && auth.value.sub == "123456"
  }

  datatype Call = Client(c: ClientMutators.Call) | TodoDeleteCall(id: string)

  function Name(c: Call): (r: string)
  {
    match c
    case Client(cc) => ClientMutators.Name(cc)
    case TodoDeleteCall(_) => "todo.delete"
  }

  /** Runs one server mutator. `clientAuth` is what the client mutators were
      built with, `serverAuth` the optional `authData` given here. */
  function Run(clientAuth: AuthData, serverAuth: Option<AuthData>, c: Call, current: Option<TodoRow>): (r: Outcome)
    ensures c.Client? ==> r == ClientMutators.Run(clientAuth, c.c, current)
    ensures c.TodoDeleteCall? ==> (r.Success? <==> CanDelete(serverAuth) && Authorized(clientAuth))
    ensures c.TodoDeleteCall? && r.Success? ==> r.value == TodoDelete(c.id)
    ensures c.TodoDeleteCall? && r.Failure? ==> r.error == NotAuthorized
  {
    match c
    case Client(cc) => ClientMutators.Run(clientAuth, cc, current)
    case TodoDeleteCall(id) =>
      if CanDelete(serverAuth) then ClientMutators.TodoRemove(clientAuth, id)
      else Failure(NotAuthorized)
  }

  /** Every client mutator is carried over unchanged, and `todo.delete` is
      the only entry the server adds. */
  lemma ClientMutatorsCarriedOver(clientAuth: AuthData, serverAuth: Option<AuthData>, cc: ClientMutators.Call, current: Option<TodoRow>)
    ensures Run(clientAuth, serverAuth, Client(cc), current) == ClientMutators.Run(clientAuth, cc, current)
    ensures Name(Client(cc)) == ClientMutators.Name(cc)
    ensures ClientMutators.Name(cc) != "todo.delete"
  {
  }

  /** Server `todo.delete` behaves exactly as client `todo.remove` when
      `canDelete` holds, and otherwise throws "Not Authorized" without any
      mutation. */
  lemma DeleteGuarded(clientAuth: AuthData, serverAuth: Option<AuthData>, id: string, current: Option<TodoRow>)
    ensures CanDelete(serverAuth) ==>
              Run(clientAuth, serverAuth, TodoDeleteCall(id), current) == ClientMutators.TodoRemove(clientAuth, id)
    ensures !CanDelete(serverAuth) ==>
              Run(clientAuth, serverAuth, TodoDeleteCall(id), current) == Failure(NotAuthorized)
  {
  }

  /** With one `authData` for both layers, server `todo.delete` succeeds
      exactly for the privileged subject, issuing one delete of `id`. */
  lemma DeleteWithSharedAuth(auth: AuthData, id: string, current: Option<TodoRow>)
    ensures Run(auth, Some(auth), TodoDeleteCall(id), current)
            == if auth.sub == DeleterSub then Success(TodoDelete(id)) else Failure(NotAuthorized)
  {
  }
}
