/**
 * The login form: its state, the submit handler that normalises and checks
 * the nickname before asking the store to log in, the upper-casing input
 * handler, and the O-to-zero hint button.
 */
module LoginScreen {
  import opened Wrappers
  import opened Text
  import opened Players
  import opened Store

  /** Which message the form's error line shows; NoError is the empty line. */
  datatype FormError = NoError | EmptyNickname | InvalidNickname | Retry | Hint | LoginFailed

  /** The text of each error. */
  function Message(e: FormError): (text: string)
    ensures text == "" <==> e == NoError
  {
    match e
    case NoError => ""
    case EmptyNickname => "Введите никнейм!"
    case InvalidNickname => "Неверный никнейм!"
    case Retry => "ОШИБКА! Пожалуйста, проверьте правильно ли вы написали ник"
    case Hint => "Хмм... Попробуйте заменить букву O на 0, вдруг сработает? 🤔"
    case LoginFailed => "Ошибка входа!"
  }

  /** The nickname that triggers the two-step easter egg. */
  const EasterEggNickname: string := "KLENKOZARASHI"

  /** `nickname.trim().toUpperCase()`. */
  function NormalizedNickname(nickname: string): (t: string)
    ensures |t| <= |nickname|
  {
    ToUpper(Trim(nickname))
  }

  /** The normalised nickname is empty exactly when the typed one is all whitespace. */
  lemma NormalizedEmptyIffBlank(nickname: string)
    ensures NormalizedNickname(nickname) == [] <==> forall i :: 0 <= i < |nickname| ==> IsTrimmable(nickname[i])
  {
    if forall i :: 0 <= i < |nickname| ==> IsTrimmable(nickname[i]) {
      TrimAllBlank(nickname);
    }
  }

  class LoginForm {
    /** `isValidNickname`, as the form calls it. */
    const isValid: string -> bool

    var nickname: string
    var error: FormError
    var isShaking: bool
    var klenkoAttempts: int
    var showHint: bool

    /** The form uses the registry's own validity check. */
    ghost predicate UsesRegistry()
      reads this
    {
      forall s :: isValid(s) == IsValidNickname(s)
    }

    /** A fresh form wired to the registry's validity check. */
    constructor ()
      ensures UsesRegistry()
      ensures nickname == "" && error == NoError && !isShaking && klenkoAttempts == 0 && !showHint
    {
      isValid := IsValidNickname;
      nickname := "";
      error := NoError;
      isShaking := false;
      klenkoAttempts := 0;
      showHint := false;
    }

    /**
     * `handleSubmit`. Clears the error and the hint, then: rejects an empty
     * normalised nickname, rejects an invalid one, answers the easter-egg
     * nickname in two steps, and otherwise asks the store to log in, showing
     * an error if it refuses. Every rejection shakes the input. The store is
     * asked exactly when the normalised nickname is non-empty, valid and not
     * the easter-egg nickname.
     */
    method HandleSubmit(store: GameStore, seed: nat) returns (loginCalled: bool, loggedIn: bool)
      modifies this, store
      ensures var t := NormalizedNickname(old(nickname));
        loginCalled <==> t != [] && isValid(t) && t != EasterEggNickname
      ensures var t := NormalizedNickname(old(nickname));
        t == [] ==> error == EmptyNickname && isShaking && !showHint && klenkoAttempts == old(klenkoAttempts)
      ensures var t := NormalizedNickname(old(nickname));
        t != [] && !isValid(t) ==> error == InvalidNickname && isShaking && !showHint && klenkoAttempts == old(klenkoAttempts)
      ensures var t := NormalizedNickname(old(nickname));
        t != [] && isValid(t) && t == EasterEggNickname && old(klenkoAttempts) == 0 ==>
          klenkoAttempts == 1 && error == Retry && isShaking && !showHint
      ensures var t := NormalizedNickname(old(nickname));
        t != [] && isValid(t) && t == EasterEggNickname && old(klenkoAttempts) != 0 ==>
          klenkoAttempts == old(klenkoAttempts) && error == Hint && isShaking && showHint
      ensures loginCalled ==> klenkoAttempts == old(klenkoAttempts) && !showHint
      ensures loginCalled ==> (loggedIn <==> IsValidNickname(NormalizedNickname(old(nickname))))
      ensures loginCalled && loggedIn ==> error == NoError && isShaking == old(isShaking)
      ensures loggedIn ==> loginCalled
      ensures loggedIn ==> store.isAuthenticated
                           && store.currentPlayer == Some(FreshPlayer(GetPlayerInfo(NormalizedNickname(old(nickname))).value))
                           && store.currentSpin == store.generateRandomSpin(NormalizedNickname(old(nickname)), [], seed)
      ensures store.isSpinning == old(store.isSpinning) && store.lastResult == old(store.lastResult)
      ensures store.showVictoryScreen == old(store.showVictoryScreen)
      ensures loginCalled && !loggedIn ==> error == LoginFailed && isShaking
      ensures !loggedIn ==> unchanged(store)
      ensures nickname == old(nickname)
    {
      error := NoError;
      showHint := false;
      loginCalled, loggedIn := false, false;

      var trimmedNick := NormalizedNickname(nickname);

      if trimmedNick == [] {
        error := EmptyNickname;
        isShaking := true;
        return;
      }

      if !isValid(trimmedNick) {
        error := InvalidNickname;
        isShaking := true;
        return;
      }

      if trimmedNick == EasterEggNickname {
        if klenkoAttempts == 0 {
          klenkoAttempts := 1;
          error := Retry;
          isShaking := true;
          return;
        }
        error := Hint;
        showHint := true;
        isShaking := true;
        return;
      }

      loginCalled := true;
      loggedIn := TryLogin(store, trimmedNick, seed);
    }

    /** The last step of `handleSubmit`: ask the store to log in, and show an error if it refuses. */
    method TryLogin(store: GameStore, nickname: string, seed: nat) returns (loggedIn: bool)
      modifies this, store
      ensures loggedIn <==> IsValidNickname(nickname)
      ensures loggedIn ==> store.isAuthenticated && store.currentPlayer == Some(FreshPlayer(GetPlayerInfo(nickname).value))
                           && store.currentSpin == store.generateRandomSpin(nickname, [], seed)
      ensures store.isSpinning == old(store.isSpinning) && store.lastResult == old(store.lastResult)
      ensures store.showVictoryScreen == old(store.showVictoryScreen)
      ensures loggedIn ==> error == old(error) && isShaking == old(isShaking)
      ensures !loggedIn ==> error == LoginFailed && isShaking && unchanged(store)
      ensures this.nickname == old(this.nickname) && klenkoAttempts == old(klenkoAttempts) && showHint == old(showHint)
    {
      loggedIn := store.Login(nickname, seed);
      if !loggedIn {
        error := LoginFailed;
        isShaking := true;
      }
    }

    /** The input's `onChange`: the typed text is stored upper-cased and the error is cleared. */
    method OnChange(value: string)
      modifies this
      ensures nickname == ToUpper(value) && error == NoError
      ensures forall i :: 0 <= i < |nickname| ==> !('a' <= nickname[i] <= 'z')
      ensures showHint == old(showHint) && klenkoAttempts == old(klenkoAttempts) && isShaking == old(isShaking)
    {
      nickname := ToUpper(value);
      error := NoError;
    }

    /** The hint button: every O and o of the nickname becomes 0, and the error and the hint disappear. */
    method UseHint()
      modifies this
      ensures nickname == ReplaceOWithZero(old(nickname)) && error == NoError && !showHint
      ensures klenkoAttempts == old(klenkoAttempts) && isShaking == old(isShaking)
    {
      nickname := ReplaceOWithZero(nickname);
      error := NoError;
      showHint := false;
    }
  }

  /**
   * With the registry's check the easter-egg branch is dead: KLENKOZARASHI is
   * not a valid nickname, and validity is checked first.
   */
  lemma EasterEggNicknameIsInvalid()
    ensures !IsValidNickname(EasterEggNickname)
  {
    assert ToUpper(EasterEggNickname) == EasterEggNickname;
  }

  /**
   * So with the registry's check a submit never touches the attempt counter or
   * shows the hint, and an accepted nickname always logs in.
   */
  method SubmitWithRegistry(form: LoginForm, store: GameStore, seed: nat) returns (loginCalled: bool, loggedIn: bool)
    requires form.UsesRegistry()
    modifies form, store
    ensures form.klenkoAttempts == old(form.klenkoAttempts) && !form.showHint
    ensures loginCalled == loggedIn
    ensures loggedIn <==> IsValidNickname(NormalizedNickname(old(form.nickname)))
  {
    EasterEggNicknameIsInvalid();
    loginCalled, loggedIn := form.HandleSubmit(store, seed);
    var t := NormalizedNickname(old(form.nickname));
    assert t == [] ==> !IsValidNickname(t);
  }

  /** The hint turns the easter-egg nickname into KLENK0ZARASHI, which the registry rejects as well. */
  lemma HintedNicknameIsInvalid()
    ensures ReplaceOWithZero(EasterEggNickname) == "KLENK0ZARASHI"
    ensures !IsValidNickname(ReplaceOWithZero(EasterEggNickname))
  {
    var hinted := ReplaceOWithZero(EasterEggNickname);
    assert hinted == "KLENK0ZARASHI";
    assert ToUpper(hinted) == hinted;
  }
}
