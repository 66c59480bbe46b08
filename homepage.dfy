/**
 * The view state of the home page component (src/Pages/HomePage.js): the
 * theme and its persisted copy, the fetch status and profile bundle, the
 * typing animation of the bio, the navigation menu and the two modals.
 *
 * React state hooks are fields; an effect is run by the handler that changes
 * its dependencies. The browser's storage, the `data-theme` attribute and
 * the body's scroll lock are fields standing for what the page writes there.
 */
module HomePage {
  import opened Wrappers
  import opened Text
  import opened Payload

  /** The value written to storage and to `data-theme`. */
  function ThemeName(dark: bool): (name: string)
    ensures name == "dark" || name == "light"
    ensures name == "dark" <==> dark
  {
    if dark then "dark" else "light"
  }

  /** The initial theme (src/Pages/HomePage.js:23-26): dark when nothing is
      saved or the saved value is "dark", light for anything else. */
  function InitialDark(saved: Option<string>): bool {
    saved.None? || saved.value == "dark"
  }

  /** What the page persists is read back as the same theme on the next load. */
  lemma ThemeRoundTrip(dark: bool)
    ensures InitialDark(Some(ThemeName(dark))) == dark
  {
  }

  /** Which of the three top-level views is rendered
      (src/Pages/HomePage.js:229-266). */
  datatype Screen = LoadingScreen | ErrorScreen | PageScreen(bundle: Bundle)

  class HomePageView {
    var isDark: bool
    /** The "theme" entry of local storage. */
    var savedTheme: Option<string>
    /** The `data-theme` attribute of the document element. */
    var themeAttribute: string
    var isVisible: bool
    var loading: bool
    var profileData: Option<Bundle>
    var typedText: string
    /** The typing interval is registered. */
    var typing: bool
    var currentIndex: nat
    var navOpen: bool
    var selectedProject: Option<Project>
    var selectedCertificate: Option<Certificate>
    /** `document.body.style.overflow` is "hidden"; both modals share it. */
    var scrollLocked: bool

    ghost predicate Valid()
      reads this
    {
      savedTheme == Some(ThemeName(isDark)) && themeAttribute == ThemeName(isDark)
      && (profileData.Some? ==> !loading && WellFormed(profileData.value))
      && (typing ==> profileData.Some? && isVisible && currentIndex <= |Bio()| + 1)
    }

    /** The normalized bio the animation types out. */
    function Bio(): string
      reads this
      requires profileData.Some? && WellFormed(profileData.value)
    {
      profileData.value.profile_data.bio.value
    }

    function CurrentScreen(): Screen
      reads this
    {
      if loading then LoadingScreen
      else if profileData.None? then ErrorScreen
      else PageScreen(profileData.value)
    }

    ghost function ThemeState(): (bool, Option<string>, string) reads this {
      (isDark, savedTheme, themeAttribute)
    }
    ghost function FetchState(): (bool, Option<Bundle>) reads this {
      (loading, profileData)
    }
    ghost function TypingState(): (bool, string, bool, nat) reads this {
      (isVisible, typedText, typing, currentIndex)
    }
    ghost function ModalState(): (Option<Project>, Option<Certificate>, bool) reads this {
      (selectedProject, selectedCertificate, scrollLocked)
    }

    /** First render followed by the mount effects: the theme is applied and
        persisted, the page becomes visible, and the body may scroll. The
        fetch has been started and its response is not in yet. */
    constructor (saved: Option<string>)
      ensures Valid()
      ensures isDark == InitialDark(saved)
      ensures loading && profileData.None? && CurrentScreen() == LoadingScreen
      ensures isVisible && typedText == "" && !typing
      ensures !navOpen && selectedProject.None? && selectedCertificate.None? && !scrollLocked
    {
      var dark := InitialDark(saved);
      isDark := dark;
      isVisible := false;
      typedText := "";
      loading := true;
      profileData := None;
      navOpen := false;
      selectedProject := None;
      selectedCertificate := None;
      typing := false;
      currentIndex := 0;
      var name := ThemeName(dark);
      themeAttribute := name;
      savedTheme := Some(name);
      isVisible := true;
      scrollLocked := false;
    }

    /** The theme effect (src/Pages/HomePage.js:200-206). */
    method PersistTheme()
      modifies this`savedTheme, this`themeAttribute
      ensures savedTheme == Some(ThemeName(isDark)) && themeAttribute == ThemeName(isDark)
    {
      var name := ThemeName(isDark);
      themeAttribute := name;
      savedTheme := Some(name);
    }

    /** Either theme button: flip the theme and persist the new value. */
    method ToggleTheme()
      requires Valid()
      modifies this
      ensures Valid()
      ensures isDark == !old(isDark) && savedTheme == Some(ThemeName(isDark))
      ensures FetchState() == old(FetchState()) && TypingState() == old(TypingState())
      ensures navOpen == old(navOpen) && ModalState() == old(ModalState())
    {
      isDark := !isDark;
      PersistTheme();
    }

    /** Click on the menu icon. */
    method ToggleNav()
      modifies this`navOpen
      ensures navOpen == !old(navOpen)
    {
      navOpen := !navOpen;
    }

    /** A key pressed on the menu icon: Enter and Space toggle, any other key
        does nothing (src/Pages/HomePage.js:59-63). */
    method HamburgerKey(key: string)
      modifies this`navOpen
      ensures navOpen == (if key == "Enter" || key == " " then !old(navOpen) else old(navOpen))
    {
      if key == "Enter" || key == " " {
        navOpen := !navOpen;
      }
    }

    /** A window resize or a click on a menu link closes the menu. */
    method CloseNav()
      modifies this`navOpen
      ensures !navOpen
    {
      navOpen := false;
    }

    /** The typing effect (src/Pages/HomePage.js:182-198), run whenever
        `isVisible` or `profileData` changes: the previous interval is
        cleared, and a new one starts at index 0 when the profile is loaded
        and the page is visible. `typedText` is left as it is. */
    method TypingEffect()
      requires profileData.Some? ==> WellFormed(profileData.value)
      modifies this`typing, this`currentIndex
      ensures typing <==> profileData.Some? && isVisible
      ensures typing ==> currentIndex == 0
      ensures !typing ==> currentIndex == old(currentIndex)
    {
      typing := false;
      if profileData.Some? && isVisible {
        currentIndex := 0;
        typing := true;
      }
    }

    /** The response of the one fetch: the envelope is validated and the
        payload normalized, then the page leaves the loading state and the
        typing effect reruns. */
    method ReceiveResponse(resp: Response)
      requires Valid() && loading && profileData.None?
      modifies this
      ensures Valid() && !loading
      ensures profileData == (match Receive(resp) case Failed => None case Success(b) => Some(b))
      ensures CurrentScreen() == (match Receive(resp) case Failed => ErrorScreen case Success(b) => PageScreen(b))
      ensures typing <==> Receive(resp).Success? && isVisible
      ensures typing ==> currentIndex == 0
      ensures !typing ==> currentIndex == old(currentIndex)
      ensures ThemeState() == old(ThemeState()) && navOpen == old(navOpen) && ModalState() == old(ModalState())
      ensures isVisible == old(isVisible) && typedText == old(typedText)
    {
      if !resp.ok || resp.body.None? || resp.body.value.profile_data.None? {
        loading := false;
        profileData := None;
        return;
      }
      var bundle := NormalizeFields(resp.body.value);
      NormalizedIsWellFormed(resp.body.value);
      assert Receive(resp) == Success(bundle) && WellFormed(bundle);
      profileData := Some(bundle);
      loading := false;
      TypingEffect();
    }

    /** One firing of the typing interval: while the index has not passed
        the end of the bio, show the prefix of that length and advance;
        afterwards clear the interval. */
    method Tick() returns (frame: Option<string>)
      requires Valid()
      modifies this`typedText, this`typing, this`currentIndex
      ensures Valid()
      ensures !old(typing) ==> frame.None? && TypingState() == old(TypingState())
      ensures old(typing) && old(currentIndex) <= |Bio()| ==>
                frame == Some(Bio()[..old(currentIndex)]) && typedText == frame.value
                && typing && currentIndex == old(currentIndex) + 1
      ensures old(typing) && old(currentIndex) > |Bio()| ==>
                frame.None? && !typing && typedText == old(typedText) && currentIndex == old(currentIndex)
    {
      frame := None;
      if typing {
        var bio := Bio();
        if currentIndex <= |bio| {
          typedText := bio[..currentIndex];
          frame := Some(typedText);
          currentIndex := currentIndex + 1;
        } else {
          typing := false;
        }
      }
    }

    /** The interval run to completion: it shows every prefix of the bio,
        from the empty one to the whole bio, in order, and then stops. */
    method TypeOut() returns (frames: seq<string>)
      requires Valid() && typing && currentIndex == 0
      modifies this`typedText, this`typing, this`currentIndex
      ensures Valid() && !typing && typedText == Bio()
      ensures |frames| == |Bio()| + 1
      ensures forall k :: 0 <= k < |frames| ==> k <= |Bio()| && frames[k] == Bio()[..k]
    {
      frames := [];
      while typing
        invariant Valid() && profileData == old(profileData)
        invariant typing ==> currentIndex == |frames|
        invariant |frames| <= |Bio()| + 1
        invariant forall k :: 0 <= k < |frames| ==> k <= |Bio()| && frames[k] == Bio()[..k]
        invariant |frames| > 0 ==> typedText == frames[|frames| - 1]
        invariant !typing ==> |frames| == |Bio()| + 1
        decreases if typing then |Bio()| + 2 - currentIndex else 0
      {
        var frame := Tick();
        if frame.Some? {
          frames := frames + [frame.value];
        }
      }
      assert Bio()[..|Bio()|] == Bio();
    }

    /** The project-modal effect (src/Pages/HomePage.js:216-226): the body
        scrolls exactly when no project is selected. */
    method ProjectModalEffect()
      modifies this`scrollLocked
      ensures scrollLocked == selectedProject.Some?
    {
      scrollLocked := selectedProject.Some?;
    }

    /** A project card clicked, or activated with Enter or Space. Selecting
        the project already shown changes no state, so the effect does not
        run; selecting another replaces the reference and locks scrolling. */
    method OpenProject(p: Project)
      modifies this`selectedProject, this`scrollLocked
      ensures selectedProject == Some(p)
      ensures scrollLocked == (if old(selectedProject) == Some(p) then old(scrollLocked) else true)
    {
      if selectedProject != Some(p) {
        selectedProject := Some(p);
        ProjectModalEffect();
      }
    }

    method CloseProject()
      modifies this`selectedProject, this`scrollLocked
      ensures selectedProject.None?
      ensures scrollLocked == (if old(selectedProject).None? then old(scrollLocked) else false)
    {
      if selectedProject.Some? {
        selectedProject := None;
        ProjectModalEffect();
      }
    }

    /** The certificate modal sets the scroll lock directly
        (src/Pages/HomePage.js:275-283). */
    method OpenCertificate(c: Certificate)
      modifies this`selectedCertificate, this`scrollLocked
      ensures selectedCertificate == Some(c) && scrollLocked
    {
      selectedCertificate := Some(c);
      scrollLocked := true;
    }

    method CloseCertificate()
      modifies this`selectedCertificate, this`scrollLocked
      ensures selectedCertificate.None? && !scrollLocked
    {
      selectedCertificate := None;
      scrollLocked := false;
    }
  }
}
