/** The application shell of `App.jsx`: which screen is shown (the splash,
    the login form or the main app), the current view with the history of
    views visited, and the mobile menu. */
module Navigation {
  import opened Js

  /** The user record the shell holds once someone has logged in. */
  datatype UserData = UserData(id: string, name: string)

  /** The three screens the shell can show. */
  datatype Screen = Splash | LoginScreen | MainApp

  /** The page components `renderView` chooses between. */
  datatype Page =
    | HomePage | VoicePage | MapPage | MoodPage | HelpPage | TipsPage
    | MaternalPage | SymptomsPage | EventsPage | VolunteersPage | FriendsPage

  const HomeView: string := "home"

  /** The view name each page is reached by. */
  function ViewName(p: Page): string
  {
    match p
    case HomePage => "home"
    case VoicePage => "voice"
    case MapPage => "map"
    case MoodPage => "mood"
    case HelpPage => "help"
    case TipsPage => "tips"
    case MaternalPage => "maternal"
    case SymptomsPage => "symptoms"
    case EventsPage => "events"
    case VolunteersPage => "volunteers"
    case FriendsPage => "friends"
  }

  /** `renderView`: the page named by the view, and the home page for a view
      name no page has. */
  function PageOf(view: string): (p: Page)
    ensures p == HomePage || ViewName(p) == view
    ensures (exists q :: ViewName(q) == view) ==> ViewName(p) == view
  {
    match view
    case "home" => HomePage
    case "voice" => VoicePage
    case "map" => MapPage
    case "mood" => MoodPage
    case "help" => HelpPage
    case "tips" => TipsPage
    case "maternal" => MaternalPage
    case "symptoms" => SymptomsPage
    case "events" => EventsPage
    case "volunteers" => VolunteersPage
    case "friends" => FriendsPage
    case _ => HomePage
  }

  /** Each page is rendered for its own view name: `PageOf` inverts `ViewName`. */
  lemma PageOfViewName(p: Page)
    ensures PageOf(ViewName(p)) == p
  {
  }

  /** The screen gating: the splash while loading, then the login form until
      a user is present and the login form has been dismissed. */
  function ScreenOf(isLoading: bool, showLogin: bool, user: Option<UserData>): (s: Screen)
    ensures s == Splash <==> isLoading
    ensures s == MainApp <==> !isLoading && !showLogin && user.Some?
  {
    if isLoading then Splash
    else if showLogin || user.None? then LoginScreen
    else MainApp
  }

  /** The history after `goBack`: the last entry popped when there is more
      than one, otherwise the same history. */
  function Back(history: seq<string>): (r: seq<string>)
    ensures |history| > 1 ==> |r| == |history| - 1 && history == r + [history[|history| - 1]]
    ensures |history| <= 1 ==> r == history
    ensures |history| > 0 ==> |r| > 0
  {
    if |history| > 1 then history[..|history| - 1] else history
  }

  /** Going back right after navigating returns to the history, and so to
      the view, that was current before. */
  lemma BackUndoesNavigate(history: seq<string>, view: string)
    requires |history| > 0
    ensures Back(history + [view]) == history
    ensures Back(history + [view])[|history| - 1] == history[|history| - 1]
  {
    assert (history + [view])[..|history|] == history;
  }

  /** The shell's state. */
  class App {
    var currentView: string
    var isLoading: bool
    var showLogin: bool
    var user: Option<UserData>
    var viewHistory: seq<string>
    var isMobileMenuOpen: bool
    /** The `sneho_user` entry of local storage. */
    var savedUser: Option<UserData>

    /** The history is never empty and its last entry is the current view. */
    ghost predicate Valid()
      reads this
    {
      |viewHistory| > 0 && currentView == viewHistory[|viewHistory| - 1]
    }

    /** The screen the shell renders. */
    function Showing(): Screen
      reads this
    {
      ScreenOf(isLoading, showLogin, user)
    }

    /** The initial state, with the user restored from local storage by the
        mount effect. */
    constructor (saved: Option<UserData>)
      ensures Valid()
      ensures currentView == HomeView && viewHistory == [HomeView]
      ensures isLoading && !showLogin && !isMobileMenuOpen
      ensures user == saved && savedUser == saved
      ensures Showing() == Splash
    {
      currentView := HomeView;
      isLoading := true;
      showLogin := false;
      user := saved;
      viewHistory := [HomeView];
      isMobileMenuOpen := false;
      savedUser := saved;
    }

    /** `handleLoadingComplete`: the splash ends and the login form shows. */
    method HandleLoadingComplete()
      modifies this`isLoading, this`showLogin
      ensures !isLoading && showLogin
      ensures Showing() == LoginScreen
    {
      isLoading := false;
      showLogin := true;
    }

    /** `handleLogin`: the user is set and the login form dismissed, so once
        loading is over the main app shows. */
    method HandleLogin(userData: UserData)
      modifies this`user, this`showLogin
      ensures user == Some(userData) && !showLogin
      ensures !isLoading ==> Showing() == MainApp
    {
      user := Some(userData);
      showLogin := false;
    }

    /** `handleLogout`: the session is dropped and the shell returns to the
        login form with a fresh history. */
    method HandleLogout()
      modifies this
      ensures savedUser.None? && user.None? && showLogin
      ensures currentView == HomeView && viewHistory == [HomeView] && !isMobileMenuOpen
      ensures isLoading == old(isLoading)
      ensures Valid() && Showing() != MainApp
    {
      savedUser := None;
      user := None;
      showLogin := true;
      currentView := HomeView;
      viewHistory := [HomeView];
      isMobileMenuOpen := false;
    }

    /** `navigateTo`: the view is pushed on the history and shown, and the
        mobile menu closes. */
    method NavigateTo(view: string)
      requires Valid()
      modifies this`viewHistory, this`currentView, this`isMobileMenuOpen
      ensures viewHistory == old(viewHistory) + [view]
      ensures currentView == view && !isMobileMenuOpen
      ensures Valid()
    {
      viewHistory := viewHistory + [view];
      currentView := view;
      isMobileMenuOpen := false;
    }

    /** `goBack`: with more than one entry, the last is popped and the new
        last entry shown; with one entry nothing changes. */
    method GoBack()
      requires Valid()
      modifies this`viewHistory, this`currentView
      ensures viewHistory == Back(old(viewHistory))
      ensures |old(viewHistory)| == 1 ==> currentView == old(currentView)
      ensures Valid()
    {
      if |viewHistory| > 1 {
        var newHistory := viewHistory[..|viewHistory| - 1];
        var previousView := newHistory[|newHistory| - 1];
        currentView := previousView;
        viewHistory := newHistory;
      }
    }

    /** `goHome`: the history is reset to the home view alone. */
    method GoHome()
      modifies this`viewHistory, this`currentView, this`isMobileMenuOpen
      ensures currentView == HomeView && viewHistory == [HomeView] && !isMobileMenuOpen
      ensures Valid()
    {
      currentView := HomeView;
      viewHistory := [HomeView];
      isMobileMenuOpen := false;
    }

    /** `toggleMobileMenu`. */
    method ToggleMobileMenu()
      modifies this`isMobileMenuOpen
      ensures isMobileMenuOpen == !old(isMobileMenuOpen)
    {
      isMobileMenuOpen := !isMobileMenuOpen;
    }
  }
}
