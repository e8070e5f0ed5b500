/**
 * The account store of context/UserContext.tsx: one `state` record holding the id of
 * the signed-in user and the users by id, plus the sign-in dialog flag. Every method
 * replaces `state` by a pure function of the previous state; the properties are proved
 * about those functions. Ids and timestamps are parameters.
 */
module UserContext {
  import opened Wrappers
  import opened Strings
  import opened Records
  import opened Selection

  datatype AuthProvider = Email | Google | Microsoft

  datatype HistoryEntry = HistoryEntry(quizId: string, score: int, totalQuestions: int, completedAt: int)

  datatype StoredUser = StoredUser(
    id: string,
    name: string,
    email: string,
    provider: AuthProvider,
    avatarColor: string,
    createdQuizIds: seq<string>,
    likedQuizIds: seq<string>,
    followingCreatorIds: seq<string>,
    history: seq<HistoryEntry>)

  datatype StoredState = StoredState(currentUserId: Option<string>, users: Record<StoredUser>)

  const ColorPalette: seq<string> := [
    "bg-gradient-to-br from-sky-500 to-indigo-500",
    "bg-gradient-to-br from-emerald-500 to-teal-500",
    "bg-gradient-to-br from-amber-500 to-orange-500",
    "bg-gradient-to-br from-rose-500 to-pink-500",
    "bg-gradient-to-br from-purple-500 to-violet-500"
  ]

  /** `email.trim().toLowerCase()`. */
  function NormalizeEmail(email: string): (r: string)
    ensures |r| <= |email|
    ensures r == [] <==> AllSpace(email)
    ensures forall k :: 0 <= k < |r| ==> !('A' <= r[k] <= 'Z')
  {
    TrimEmptyIff(email);
    Lower(Trim(email))
  }

  /** Normalising an already normalised address changes nothing. */
  lemma NormalizeEmailIdempotent(email: string)
    ensures NormalizeEmail(NormalizeEmail(email)) == NormalizeEmail(email)
  {
    var t := Trim(email);
    var r := Lower(t);
    if r != [] {
      LowerCharKeepsSpace(t[0]);
      LowerCharKeepsSpace(t[|t| - 1]);
      TrimSpec(email);
    }
    TrimFixed(r);
    LowerIdempotent(t);
  }

  lemma LowerCharKeepsSpace(c: char)
    ensures IsSpace(LowerChar(c)) == IsSpace(c)
  {
    if 'A' <= c <= 'Z' {
      assert !IsSpace(c) && !IsSpace(LowerChar(c));
    }
  }

  /** First character upper-cased (`segment[0].toUpperCase() + segment.slice(1)`). */
  function Capitalize(s: string): (r: string)
    ensures |r| == |s|
    ensures s != [] ==> r[0] == UpperChar(s[0]) && !('a' <= r[0] <= 'z') && r[1..] == s[1..]
    ensures Lower(r) == Lower(s)
  {
    if s == [] then s else [UpperChar(s[0])] + s[1..]
  }

  /** The characters `/[._-]/` splits on. */
  const NameSeparators: set<char> := {'.', '_', '-'}

  /** The non-empty segments, capitalised (`.filter(Boolean).map(...)`). */
  function CapitalizedSegments(segments: seq<string>): (words: seq<string>)
    ensures |words| <= |segments|
    ensures forall k :: 0 <= k < |words| ==> words[k] != []
    ensures (forall k, j :: 0 <= k < |segments| && 0 <= j < |segments[k]| ==> segments[k][j] !in NameSeparators) ==>
      forall k, j :: 0 <= k < |words| && 0 <= j < |words[k]| ==> words[k][j] !in NameSeparators
  {
    if segments == [] then []
    else if segments[0] == [] then CapitalizedSegments(segments[1..])
    else
      assert forall j :: 0 <= j < |segments[0]| ==> segments[0][j] == segments[0][j];
      [Capitalize(segments[0])] + CapitalizedSegments(segments[1..])
  }

  /** The part of an address before the first `@` (`const [name] = email.split("@")`). */
  function LocalPart(email: string): string {
    Split(email, {'@'})[0]
  }

  /** `deriveNameFromEmail`: the local part's segments, capitalised and joined by spaces. */
  function DeriveNameFromEmail(email: string): (name: string)
    ensures LocalPart(email) == [] ==> name == "Explorateur"
  {
    var local := LocalPart(email);
    if local == [] then "Explorateur"
    else Join(CapitalizedSegments(Split(local, NameSeparators)), " ")
  }

  /**
   * For an address without spaces and with a non-empty local part, the derived name
   * splits at its spaces back into the capitalised non-empty segments of the local part.
   */
  lemma DeriveNameWords(email: string)
    requires forall k :: 0 <= k < |email| ==> email[k] != ' '
    requires LocalPart(email) != []
    ensures var words := CapitalizedSegments(Split(LocalPart(email), NameSeparators));
      words != [] ==> Split(DeriveNameFromEmail(email), {' '}) == words
  {
    var local := LocalPart(email);
    var words := CapitalizedSegments(Split(local, NameSeparators));
    assert |Split(email, {'@'})[0]| <= |email| && Split(email, {'@'})[0] == email[..|local|] by {
      SplitFirstIsPrefix(email, {'@'});
    }
    SplitPiecesFrom(local, NameSeparators, ' ');
    CapitalizedSegmentsAvoid(Split(local, NameSeparators), ' ');
    if words != [] {
      SplitJoin(words, ' ');
    }
  }

  /** The first piece of a split is a prefix of the string. */
  lemma SplitFirstIsPrefix(s: string, seps: set<char>)
    ensures |Split(s, seps)[0]| <= |s| && Split(s, seps)[0] == s[..|Split(s, seps)[0]|]
  {
  }

  /** The pieces of a split avoid any character the string avoids. */
  lemma {:induction false} SplitPiecesFrom(s: string, seps: set<char>, c: char)
    requires forall k :: 0 <= k < |s| ==> s[k] != c
    ensures forall k :: 0 <= k < |Split(s, seps)| ==> c !in Split(s, seps)[k]
    decreases |s|
  {
    var i := FirstIndexIn(s, seps);
    if i < |s| {
      SplitPiecesFrom(s[i + 1..], seps, c);
      assert Split(s, seps) == [s[..i]] + Split(s[i + 1..], seps);
    }
  }

  /** Capitalising keeps a non-letter character out. */
  lemma {:induction false} CapitalizedSegmentsAvoid(segments: seq<string>, c: char)
    requires !('a' <= c <= 'z') && !('A' <= c <= 'Z')
    requires forall k :: 0 <= k < |segments| ==> c !in segments[k]
    ensures forall k :: 0 <= k < |CapitalizedSegments(segments)| ==> c !in CapitalizedSegments(segments)[k]
  {
    if segments != [] {
      CapitalizedSegmentsAvoid(segments[1..], c);
      if segments[0] != [] {
        var w := Capitalize(segments[0]);
        assert w == [UpperChar(segments[0][0])] + segments[0][1..];
        forall j | 0 <= j < |w| ensures w[j] != c {
          if j > 0 {
            assert w[j] == segments[0][j];
          }
        }
      }
    }
  }

  /** `COLOR_PALETTE[index % COLOR_PALETTE.length]`. */
  function PickAvatarColor(index: nat): (color: string)
    ensures color in ColorPalette
    ensures color == ColorPalette[index % 5]
  {
    ColorPalette[index % |ColorPalette|]
  }

  /** The palette repeats every five users. */
  lemma PickAvatarColorPeriodic(index: nat)
    ensures PickAvatarColor(index + 5) == PickAvatarColor(index)
  {
  }

  // ---------------------------------------------------------------------------
  // The state transitions.

  /** `state.currentUserId` is truthy: present and not the empty string. */
  predicate SignedIn(s: StoredState) {
    s.currentUserId.Some? && s.currentUserId.value != ""
  }

  /** `previous.users[previous.currentUserId ?? ""]`. */
  function CurrentUser(s: StoredState): Option<StoredUser> {
    Get(s.users, s.currentUserId.GetOr(""))
  }

  /** The state with the current user (found under `currentUserId ?? ""`) rewritten under its own id. */
  function UpdateCurrentUser(s: StoredState, u: StoredUser): StoredState {
    s.(users := Put(s.users, u.id, u))
  }

  function ToggleLikeState(s: StoredState, quizId: string): (s': StoredState)
    ensures s'.currentUserId == s.currentUserId
    ensures CurrentUser(s).None? ==> s' == s
    ensures CurrentUser(s).Some? ==>
      var u := CurrentUser(s).value;
      Get(s'.users, u.id) == Some(u.(likedQuizIds := ToggleId(u.likedQuizIds, quizId))) &&
      forall k :: k != u.id ==> Get(s'.users, k) == Get(s.users, k)
  {
    match CurrentUser(s)
    case None => s
    case Some(u) => UpdateCurrentUser(s, u.(likedQuizIds := ToggleId(u.likedQuizIds, quizId)))
  }

  function ToggleFollowState(s: StoredState, creatorId: string): (s': StoredState)
    ensures s'.currentUserId == s.currentUserId
    ensures CurrentUser(s).None? ==> s' == s
    ensures CurrentUser(s).Some? ==>
      var u := CurrentUser(s).value;
      Get(s'.users, u.id) == Some(u.(followingCreatorIds := ToggleId(u.followingCreatorIds, creatorId))) &&
      forall k :: k != u.id ==> Get(s'.users, k) == Get(s.users, k)
  {
    match CurrentUser(s)
    case None => s
    case Some(u) => UpdateCurrentUser(s, u.(followingCreatorIds := ToggleId(u.followingCreatorIds, creatorId)))
  }

  /** The user is stored under its own id (true of every user the store creates). */
  predicate KeyedById(s: StoredState) {
    forall i :: 0 <= i < |s.users| ==> s.users[i].1.id == s.users[i].0
  }

  /** Liking twice restores the liked list when the quiz was not liked; other users never change. */
  lemma ToggleLikeTwice(s: StoredState, quizId: string)
    requires UniqueKeys(s.users) && KeyedById(s)
    requires CurrentUser(s).Some? && quizId !in CurrentUser(s).value.likedQuizIds
    ensures Get(ToggleLikeState(ToggleLikeState(s, quizId), quizId).users, CurrentUser(s).value.id) == CurrentUser(s)
  {
    var u := CurrentUser(s).value;
    var key := s.currentUserId.GetOr("");
    KeyedGet(s, key);
    var s1 := ToggleLikeState(s, quizId);
    assert CurrentUser(s1) == Some(u.(likedQuizIds := ToggleId(u.likedQuizIds, quizId)));
    ToggleIdTwice(u.likedQuizIds, quizId);
  }

  /** A user found under a key carries that key as its id. */
  lemma KeyedGet(s: StoredState, key: string)
    requires KeyedById(s) && Get(s.users, key).Some?
    ensures Get(s.users, key).value.id == key
  {
    var i :| 0 <= i < |s.users| && s.users[i] == (key, Get(s.users, key).value);
  }

  // History.

  /** `history.findIndex((entry) => entry.quizId === quizId)`, or -1. */
  function FindHistoryIndex(history: seq<HistoryEntry>, quizId: string): (i: int)
    ensures -1 <= i < |history|
    ensures 0 <= i ==> history[i].quizId == quizId && forall k :: 0 <= k < i ==> history[k].quizId != quizId
    ensures i == -1 ==> forall k :: 0 <= k < |history| ==> history[k].quizId != quizId
  {
    if history == [] then -1
    else if history[0].quizId == quizId then 0
    else
      var j := FindHistoryIndex(history[1..], quizId);
      if j == -1 then -1 else j + 1
  }

  /** Assigns over the existing entry for the quiz, or puts the entry in front. */
  function UpsertHistory(history: seq<HistoryEntry>, entry: HistoryEntry): (h: seq<HistoryEntry>)
    ensures |history| <= |h| <= |history| + 1
    ensures entry in h
  {
    var i := FindHistoryIndex(history, entry.quizId);
    if i >= 0 then
      assert history[i := entry][i] == entry;
      history[i := entry]
    else [entry] + history
  }

  predicate OneEntryPerQuiz(history: seq<HistoryEntry>) {
    forall i, j :: 0 <= i < j < |history| ==> history[i].quizId != history[j].quizId
  }

  /** At most one entry per quiz stays so; an existing entry is replaced where it stands. */
  lemma UpsertHistoryKeepsOnePerQuiz(history: seq<HistoryEntry>, entry: HistoryEntry)
    requires OneEntryPerQuiz(history)
    ensures OneEntryPerQuiz(UpsertHistory(history, entry))
    ensures var i := FindHistoryIndex(history, entry.quizId);
      (i >= 0 ==> |UpsertHistory(history, entry)| == |history| && UpsertHistory(history, entry)[i] == entry) &&
      (i < 0 ==> UpsertHistory(history, entry) == [entry] + history)
  {
  }

  function RecordCompletionState(s: StoredState, quizId: string, score: int, totalQuestions: int, now: int): (s': StoredState)
    ensures s'.currentUserId == s.currentUserId
    ensures CurrentUser(s).None? ==> s' == s
    ensures CurrentUser(s).Some? ==>
      var u := CurrentUser(s).value;
      Get(s'.users, u.id) == Some(u.(history := UpsertHistory(u.history, HistoryEntry(quizId, score, totalQuestions, now)))) &&
      forall k :: k != u.id ==> Get(s'.users, k) == Get(s.users, k)
  {
    match CurrentUser(s)
    case None => s
    case Some(u) => UpdateCurrentUser(s, u.(history := UpsertHistory(u.history, HistoryEntry(quizId, score, totalQuestions, now))))
  }

  function RecordCreatedState(s: StoredState, quizId: string): (s': StoredState)
    ensures s'.currentUserId == s.currentUserId
    ensures CurrentUser(s).None? || quizId in CurrentUser(s).value.createdQuizIds ==> s' == s
    ensures CurrentUser(s).Some? && quizId !in CurrentUser(s).value.createdQuizIds ==>
      var u := CurrentUser(s).value;
      Get(s'.users, u.id) == Some(u.(createdQuizIds := u.createdQuizIds + [quizId])) &&
      forall k :: k != u.id ==> Get(s'.users, k) == Get(s.users, k)
  {
    match CurrentUser(s)
    case None => s
    case Some(u) =>
      if quizId in u.createdQuizIds then s
      else UpdateCurrentUser(s, u.(createdQuizIds := u.createdQuizIds + [quizId]))
  }

  /** `recordQuizCompletion`: nothing without a signed-in user. */
  function AfterCompletion(s: StoredState, quizId: string, score: int, totalQuestions: int, now: int): StoredState {
    if SignedIn(s) then RecordCompletionState(s, quizId, score, totalQuestions, now) else s
  }

  /** `recordQuizCreated`: nothing without a signed-in user. */
  function AfterCreated(s: StoredState, quizId: string): StoredState {
    if SignedIn(s) then RecordCreatedState(s, quizId) else s
  }

  predicate NoDuplicates(ids: seq<string>) {
    forall i, j :: 0 <= i < j < |ids| ==> ids[i] != ids[j]
  }

  /** Recording a created quiz twice is recording it once, and never duplicates an id. */
  lemma RecordCreatedIdempotent(s: StoredState, quizId: string)
    requires UniqueKeys(s.users) && KeyedById(s)
    ensures RecordCreatedState(RecordCreatedState(s, quizId), quizId) == RecordCreatedState(s, quizId)
    ensures CurrentUser(s).Some? && NoDuplicates(CurrentUser(s).value.createdQuizIds) ==>
      NoDuplicates(CurrentUser(RecordCreatedState(s, quizId)).value.createdQuizIds)
  {
    if CurrentUser(s).Some? {
      var u := CurrentUser(s).value;
      KeyedGet(s, s.currentUserId.GetOr(""));
      var s1 := RecordCreatedState(s, quizId);
      assert CurrentUser(s1).Some? && quizId in CurrentUser(s1).value.createdQuizIds;
    }
  }

  /** The first user, in insertion order, whose address is `email`. */
  function FindByEmail(users: Record<StoredUser>, email: string): (u: Option<StoredUser>)
    ensures u.Some? ==> u.value.email == email && u.value in Values(users)
    ensures u.None? ==> forall i :: 0 <= i < |users| ==> users[i].1.email != email
    ensures u.Some? ==> exists i | 0 <= i < |users| :: users[i].1 == u.value && forall j :: 0 <= j < i ==> users[j].1.email != email
  {
    var e := Find(users, (e: (string, StoredUser)) => e.1.email == email);
    if e.None? then None else Some(e.value.1)
  }

  /** The first user, in insertion order, who signed in with `provider`. */
  function FindByProvider(users: Record<StoredUser>, provider: AuthProvider): (u: Option<StoredUser>)
    ensures u.Some? ==> u.value.provider == provider && u.value in Values(users)
    ensures u.None? ==> forall i :: 0 <= i < |users| ==> users[i].1.provider != provider
    ensures u.Some? ==> exists i | 0 <= i < |users| :: users[i].1 == u.value && forall j :: 0 <= j < i ==> users[j].1.provider != provider
  {
    var e := Find(users, (e: (string, StoredUser)) => e.1.provider == provider);
    if e.None? then None else Some(e.value.1)
  }

  function NewUser(id: string, name: string, email: string, provider: AuthProvider, colorIndex: nat): StoredUser {
    StoredUser(id, name, email, provider, PickAvatarColor(colorIndex), [], [], [], [])
  }

  /** The state after signing in with an address whose normalised form is `email` (not empty). */
  function SignInEmailState(s: StoredState, name: string, email: string, freshId: string): (s': StoredState)
    ensures FindByEmail(s.users, email).Some? ==>
      s' == s.(currentUserId := Some(FindByEmail(s.users, email).value.id))
    ensures FindByEmail(s.users, email).None? && !HasKey(s.users, freshId) ==>
      s'.currentUserId == Some(freshId) && |s'.users| == |s.users| + 1 &&
      s'.users[..|s.users|] == s.users && s'.users[|s.users|].0 == freshId &&
      var u := s'.users[|s.users|].1;
      u.email == email && u.provider == Email && u.createdQuizIds == [] && u.likedQuizIds == [] &&
      u.followingCreatorIds == [] && u.history == [] && u.avatarColor == PickAvatarColor(|s.users|) &&
      u.id == freshId && u.name == if Trim(name) != "" then Trim(name) else DeriveNameFromEmail(email)
  {
    match FindByEmail(s.users, email)
    case Some(existing) => s.(currentUserId := Some(existing.id))
    case None =>
      var displayName := if Trim(name) != "" then Trim(name) else DeriveNameFromEmail(email);
      StoredState(Some(freshId), Put(s.users, freshId, NewUser(freshId, displayName, email, Email, |s.users|)))
  }

  function ProviderEmail(provider: AuthProvider): string {
    match provider
    case Email => "email-user@quizzyquizz.dev"
    case Google => "google-user@quizzyquizz.dev"
    case Microsoft => "microsoft-user@quizzyquizz.dev"
  }

  function ProviderName(provider: AuthProvider): string {
    match provider
    case Google => "Compte Google"
    case Microsoft => "Compte Microsoft"
    case Email => "Explorateur"
  }

  function SignInProviderState(s: StoredState, provider: AuthProvider, freshId: string): (s': StoredState)
    ensures FindByProvider(s.users, provider).Some? ==>
      s' == s.(currentUserId := Some(FindByProvider(s.users, provider).value.id))
    ensures FindByProvider(s.users, provider).None? && !HasKey(s.users, freshId) ==>
      s'.currentUserId == Some(freshId) && |s'.users| == |s.users| + 1 &&
      s'.users[..|s.users|] == s.users && s'.users[|s.users|].0 == freshId &&
      var u := s'.users[|s.users|].1;
      u.provider == provider && u.email == ProviderEmail(provider) && u.name == ProviderName(provider) &&
      u.avatarColor == PickAvatarColor(|s.users| + 3) && u.id == freshId &&
      u.createdQuizIds == [] && u.likedQuizIds == [] && u.followingCreatorIds == [] && u.history == []
  {
    match FindByProvider(s.users, provider)
    case Some(existing) => s.(currentUserId := Some(existing.id))
    case None =>
      StoredState(Some(freshId), Put(s.users, freshId,
        NewUser(freshId, ProviderName(provider), ProviderEmail(provider), provider, |s.users| + 3)))
  }

  /** The provider component. */
  class UserStore {
    var state: StoredState
    var isAuthDialogOpen: bool

    /** A JavaScript object never holds a key twice. */
    predicate Valid()
      reads this
    {
      UniqueKeys(state.users)
    }

    constructor()
      ensures state == StoredState(None, []) && !isAuthDialogOpen
      ensures Valid()
    {
      state := StoredState(None, []);
      isAuthDialogOpen := false;
    }

    /** `user`: the signed-in user, when there is one. */
    function User(): (u: Option<StoredUser>)
      reads this
      ensures u.Some? ==> SignedIn(state) && HasKey(state.users, state.currentUserId.value)
      ensures u.None? ==> !SignedIn(state) || !HasKey(state.users, state.currentUserId.value)
    {
      if !SignedIn(state) then None else Get(state.users, state.currentUserId.value)
    }

    method SignInWithEmail(name: string, email: string, freshId: string)
      requires Valid()
      requires !HasKey(state.users, freshId)
      modifies this
      ensures Valid()
      ensures NormalizeEmail(email) == [] ==> state == old(state) && isAuthDialogOpen == old(isAuthDialogOpen)
      ensures NormalizeEmail(email) != [] ==>
        state == SignInEmailState(old(state), name, NormalizeEmail(email), freshId) && !isAuthDialogOpen
    {
      var normalized := NormalizeEmail(email);
      if normalized == [] {
        return;
      }
      state := SignInEmailState(state, name, normalized, freshId);
      isAuthDialogOpen := false;
    }

    method SignInWithProvider(provider: AuthProvider, freshId: string)
      requires Valid()
      requires !HasKey(state.users, freshId)
      modifies this
      ensures Valid()
      ensures state == SignInProviderState(old(state), provider, freshId) && !isAuthDialogOpen
    {
      state := SignInProviderState(state, provider, freshId);
      isAuthDialogOpen := false;
    }

    method OpenAuthDialog()
      modifies this
      ensures isAuthDialogOpen && state == old(state)
    {
      isAuthDialogOpen := true;
    }

    method CloseAuthDialog()
      modifies this
      ensures !isAuthDialogOpen && state == old(state)
    {
      isAuthDialogOpen := false;
    }

    method SignOut()
      modifies this
      ensures state == old(state).(currentUserId := None)
      ensures isAuthDialogOpen == old(isAuthDialogOpen)
    {
      state := state.(currentUserId := None);
    }

    method ToggleLikeQuiz(quizId: string)
      requires Valid()
      modifies this
      ensures Valid()
      ensures !SignedIn(old(state)) ==> state == old(state) && isAuthDialogOpen
      ensures SignedIn(old(state)) ==> state == ToggleLikeState(old(state), quizId) && isAuthDialogOpen == old(isAuthDialogOpen)
    {
      if !SignedIn(state) {
        isAuthDialogOpen := true;
        return;
      }
      state := ToggleLikeState(state, quizId);
    }

    method ToggleFollowCreator(creatorId: string)
      requires Valid()
      modifies this
      ensures Valid()
      ensures !SignedIn(old(state)) ==> state == old(state) && isAuthDialogOpen
      ensures SignedIn(old(state)) ==> state == ToggleFollowState(old(state), creatorId) && isAuthDialogOpen == old(isAuthDialogOpen)
    {
      if !SignedIn(state) {
        isAuthDialogOpen := true;
        return;
      }
      state := ToggleFollowState(state, creatorId);
    }

    /** Copies the current user's history, then assigns at the quiz's index or puts the entry in front. */
    method RecordQuizCompletion(quizId: string, score: int, totalQuestions: int, now: int)
      requires Valid()
      modifies this
      ensures Valid()
      ensures isAuthDialogOpen == old(isAuthDialogOpen)
      ensures state == AfterCompletion(old(state), quizId, score, totalQuestions, now)
    {
      if !SignedIn(state) {
        return;
      }
      var current := CurrentUser(state);
      if current.None? {
        return;
      }
      var entry := HistoryEntry(quizId, score, totalQuestions, now);
      var existingIndex := FindHistoryIndex(current.value.history, quizId);
      var history := current.value.history;
      if existingIndex >= 0 {
        history := history[existingIndex := entry];
      } else {
        history := [entry] + history;
      }
      state := UpdateCurrentUser(state, current.value.(history := history));
    }

    method RecordQuizCreated(quizId: string)
      requires Valid()
      modifies this
      ensures Valid()
      ensures isAuthDialogOpen == old(isAuthDialogOpen)
      ensures state == AfterCreated(old(state), quizId)
    {
      if !SignedIn(state) {
        return;
      }
      state := RecordCreatedState(state, quizId);
    }
  }
}
