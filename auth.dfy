/**
  The login gate: the e-mail and password checks of the login form, the
  `user` entry of local storage, and the page switching that shows either the
  home page or the login page.
*/
module Auth {
  import opened Wrappers
  import Text

  /** Neither whitespace nor `@`: a character of the class `[^\s@]`. */
  predicate Plain(c: char) {
    !Text.IsSpace(c) && c != '@'
  }

  /**
    `/^[^\s@]+@[^\s@]+\.[^\s@]+$/.test(email)`: the string splits as
    local part, `@`, domain label, `.`, suffix, each part one or more plain characters.
  */
  predicate ValidateEmail(email: string)
    ensures ValidateEmail(email) ==> 5 <= |email| && '@' in email && '.' in email
  {
    exists at, dot :: 0 < at < dot < |email| && Splits(email, at, dot)
  }

  /** `email[at]` is the `@` and `email[dot]` the `.` of a match of the regular expression. */
  predicate Splits(email: string, at: int, dot: int) {
    && 0 < at && at + 1 < dot && dot + 1 < |email|
    && email[at] == '@' && email[dot] == '.'
    && (forall k :: 0 <= k < at ==> Plain(email[k]))
    && (forall k :: at < k < dot ==> Plain(email[k]))
    && (forall k :: dot < k < |email| ==> Plain(email[k]))
  }

  /**
    The same acceptance in words: no whitespace anywhere, exactly one `@` and not first,
    and after the `@` a `.` that is neither the first nor the last character there.
  */
  predicate WellFormedEmail(email: string) {
    && (forall k :: 0 <= k < |email| ==> !Text.IsSpace(email[k]))
    && exists at ::
      && 0 < at < |email| && email[at] == '@'
      && (forall k :: 0 <= k < |email| && k != at ==> email[k] != '@')
      && (exists dot :: at + 1 < dot < |email| - 1 && email[dot] == '.')
  }

  /** The regular expression accepts exactly the well-formed addresses. */
  lemma ValidateEmailIff(email: string)
    ensures ValidateEmail(email) <==> WellFormedEmail(email)
  {
    if ValidateEmail(email) {
      MatchIsWellFormed(email);
    }
    if WellFormedEmail(email) {
      WellFormedMatches(email);
    }
  }

  lemma MatchIsWellFormed(email: string)
    requires ValidateEmail(email)
    ensures WellFormedEmail(email)
  {
    var at, dot :| Splits(email, at, dot);
    assert Splits(email, at, dot);
    forall k | 0 <= k < |email|
      ensures !Text.IsSpace(email[k]) && (k != at ==> email[k] != '@')
    {
      SplitChar(email, at, dot, k);
    }
    assert at + 1 < dot < |email| - 1 && email[dot] == '.';
  }

  /** Each character of a match is plain, except the `@` and the `.`, which are not whitespace either. */
  lemma SplitChar(email: string, at: int, dot: int, k: int)
    requires Splits(email, at, dot) && 0 <= k < |email|
    ensures !Text.IsSpace(email[k]) && (k != at ==> email[k] != '@')
  {
    if k == at || k == dot {
      SeparatorsNotSpace();
    } else if k < at {
      assert Plain(email[k]);
    } else if k < dot {
      assert Plain(email[k]);
    } else {
      assert Plain(email[k]);
    }
  }

  lemma SeparatorsNotSpace()
    ensures !Text.IsSpace('@') && !Text.IsSpace('.')
  {
  }

  lemma WellFormedMatches(email: string)
    requires WellFormedEmail(email)
    ensures ValidateEmail(email)
  {
    var at :| && 0 < at < |email| && email[at] == '@'
      && (forall k :: 0 <= k < |email| && k != at ==> email[k] != '@')
      && (exists dot :: at + 1 < dot < |email| - 1 && email[dot] == '.');
    var dot :| at + 1 < dot < |email| - 1 && email[dot] == '.';
    assert forall k :: 0 <= k < |email| && k != at ==> Plain(email[k]);
    assert Splits(email, at, dot);
  }

  /** The message shown under the e-mail field. */
  const EmailMessage := "\U{0412}\U{0432}\U{0435}\U{0434}\U{0456}\U{0442}\U{044C} \U{043A}\U{043E}\U{0440}\U{0435}\U{043A}\U{0442}\U{043D}\U{0438}\U{0439} email"

  /** The message shown under the password field. */
  const PasswordMessage := "\U{041F}\U{0430}\U{0440}\U{043E}\U{043B}\U{044C} \U{043F}\U{043E}\U{0432}\U{0438}\U{043D}\U{0435}\U{043D} \U{043C}\U{0456}\U{0441}\U{0442}\U{0438}\U{0442}\U{0438} \U{0449}\U{043E}\U{043D}\U{0430}\U{0439}\U{043C}\U{0435}\U{043D}\U{0448}\U{0435} 6 \U{0441}\U{0438}\U{043C}\U{0432}\U{043E}\U{043B}\U{0456}\U{0432}"

  const MinPasswordLength := 6

  /** The login form is accepted: the trimmed e-mail is well formed and the trimmed password long enough. */
  predicate LoginAccepted(rawEmail: string, rawPassword: string) {
    WellFormedEmail(Text.Trim(rawEmail)) && Text.Utf16Length(Text.Trim(rawPassword)) >= MinPasswordLength
  }

  /**
    The validity decision of `handleLogin`: trim both fields, then check each one, setting
    or clearing its own error and clearing the `isValid` flag on a failure.
  */
  method CheckLoginForm(rawEmail: string, rawPassword: string)
    returns (email: string, emailError: string, passwordError: string, isValid: bool)
    ensures email == Text.Trim(rawEmail)
    ensures isValid <==> WellFormedEmail(email) && Text.Utf16Length(Text.Trim(rawPassword)) >= MinPasswordLength
    ensures isValid <==> LoginAccepted(rawEmail, rawPassword)
    ensures emailError == (if WellFormedEmail(email) then "" else EmailMessage)
    ensures passwordError == (if Text.Utf16Length(Text.Trim(rawPassword)) >= MinPasswordLength then "" else PasswordMessage)
  {
    email := Text.Trim(rawEmail);
    var password := Text.Trim(rawPassword);
    ValidateEmailIff(email);
    isValid := true;
    if !ValidateEmail(email) {
      emailError := EmailMessage;
      isValid := false;
    } else {
      emailError := "";
    }
    if Text.Utf16Length(password) < MinPasswordLength {
      passwordError := PasswordMessage;
      isValid := false;
    } else {
      passwordError := "";
    }
  }

  /** `JSON.stringify({ email })` (string escaping is not modelled). */
  function UserJson(email: string): (json: string)
    ensures |json| > 0
  {
    "{\"email\":\"" + email + "\"}"
  }

  /** `if (user)` on the stored entry: present and not the empty string. */
  predicate SignedIn(entry: Option<string>)
    ensures SignedIn(entry) <==> entry != None && entry != Some("")
  {
    entry.Some? && entry.value != ""
  }

  const HomePage := "home-page"
  const LoginPage := "login-page"

  /** The document as the login gate sees it, and the `user` entry of local storage. */
  class AuthUi {
    /** The ids of the elements with class `page`. */
    const pages: set<string>
    /** The ids of all elements of the document. */
    const ids: set<string>
    /** Whether the document has a `.topbar` element. */
    const hasTopbar: bool
    /** The ids of the elements that carry the class `active`. */
    var active: set<string>
    var topbarHidden: bool
    var emailError: string
    var passwordError: string
    /** The `user` entry of local storage. */
    var storedUser: Option<string>

    ghost predicate Valid()
      reads this
    {
      pages <= ids
    }

    constructor (pages: set<string>, ids: set<string>, hasTopbar: bool, active: set<string>, storedUser: Option<string>)
      requires pages <= ids
      ensures Valid()
      ensures this.pages == pages && this.ids == ids && this.hasTopbar == hasTopbar
      ensures this.active == active && this.storedUser == storedUser
      ensures !topbarHidden && emailError == "" && passwordError == ""
    {
      this.pages := pages;
      this.ids := ids;
      this.hasTopbar := hasTopbar;
      this.active := active;
      this.storedUser := storedUser;
      topbarHidden := false;
      emailError := "";
      passwordError := "";
    }

    /**
      `showPage(pageId)`: every page loses `active`, then the element with that id, if any,
      gains it; afterwards it is the only active page, and with no such page none is.
    */
    method ShowPage(pageId: string)
      requires Valid()
      modifies this`active
      ensures active == (old(active) - pages) + (if pageId in ids then {pageId} else {})
      ensures forall p :: p in pages ==> (p in active <==> p == pageId)
    {
      active := active - pages;
      if pageId in ids {
        active := active + {pageId};
      }
    }

    /**
      `checkAuthStatus`: with a user entry show the home page and un-hide the topbar,
      otherwise show the login page and hide the topbar (when there is one).
    */
    method CheckAuthStatus()
      requires Valid()
      modifies this`active, this`topbarHidden
      ensures var shown := if SignedIn(storedUser) then HomePage else LoginPage;
        active == (old(active) - pages) + (if shown in ids then {shown} else {})
      ensures forall p :: p in pages ==> (p in active <==> p == if SignedIn(storedUser) then HomePage else LoginPage)
      ensures topbarHidden == if hasTopbar then !SignedIn(storedUser) else old(topbarHidden)
    {
      var user := storedUser;
      if SignedIn(user) {
        ShowPage(HomePage);
        if hasTopbar {
          topbarHidden := false;
        }
      } else {
        ShowPage(LoginPage);
        if hasTopbar {
          topbarHidden := true;
        }
      }
    }

    /**
      `handleLogin`: set both field errors; on a valid form store `{email}` as the user and
      show the home page; on an invalid one write nothing to storage and switch no page.
    */
    method HandleLogin(rawEmail: string, rawPassword: string)
      requires Valid()
      modifies this`active, this`topbarHidden, this`emailError, this`passwordError, this`storedUser
      ensures emailError == (if WellFormedEmail(Text.Trim(rawEmail)) then "" else EmailMessage)
      ensures passwordError == (if Text.Utf16Length(Text.Trim(rawPassword)) >= MinPasswordLength then "" else PasswordMessage)
      ensures !LoginAccepted(rawEmail, rawPassword) ==>
        storedUser == old(storedUser) && active == old(active) && topbarHidden == old(topbarHidden)
      ensures LoginAccepted(rawEmail, rawPassword) ==>
        && storedUser == Some(UserJson(Text.Trim(rawEmail)))
        && active == (old(active) - pages) + (if HomePage in ids then {HomePage} else {})
        && (forall p :: p in pages ==> (p in active <==> p == HomePage))
        && topbarHidden == (if hasTopbar then false else old(topbarHidden))
    {
      var email, eError, pError, isValid := CheckLoginForm(rawEmail, rawPassword);
      emailError := eError;
      passwordError := pError;
      if isValid {
        storedUser := Some(UserJson(email));
        CheckAuthStatus();
      }
    }

    /** `handleLogout`: remove the user entry and show the login page with the topbar hidden. */
    method HandleLogout()
      requires Valid()
      modifies this`active, this`topbarHidden, this`storedUser
      ensures storedUser.None?
      ensures active == (old(active) - pages) + (if LoginPage in ids then {LoginPage} else {})
      ensures forall p :: p in pages ==> (p in active <==> p == LoginPage)
      ensures topbarHidden == (if hasTopbar then true else old(topbarHidden))
    {
      storedUser := None;
      CheckAuthStatus();
    }
  }
}
