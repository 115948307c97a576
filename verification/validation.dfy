/** The request checks the handlers make before touching the store, and the
    defaulting of absent optional text. */
module Validation {
  import opened Entities

  /** `Character.isWhitespace` on a code point: the ASCII controls tab to
      carriage return, the four information separators, space, and the
      Unicode space, line and paragraph separators other than the
      non-breaking ones (U+00A0, U+2007, U+202F). */
  predicate IsWhitespace(c: char) {
    var n := c as int;
    (9 <= n <= 13) || (28 <= n <= 32) || n == 0x1680
    || (0x2000 <= n <= 0x2006) || (0x2008 <= n <= 0x200A)
    || n == 0x2028 || n == 0x2029 || n == 0x205F || n == 0x3000
  }

  /** `String.isBlank`: empty, or whitespace only. */
  predicate IsBlank(s: string) {
    forall i :: 0 <= i < |s| ==> IsWhitespace(s[i])
  }

  predicate NullOrBlank(s: Option<string>) {
    s.None? || IsBlank(s.value)
  }

  /** The `x != null ? x : ""` default applied to optional text before it
      is stored. */
  function OrEmpty(s: Option<string>): string {
    match s
    case Some(v) => v
    case None => ""
  }

  /** Register refuses a request lacking email, password or username. */
  predicate RegisterRejected(req: AuthRequest) {
    req.email.None? || req.password.None? || req.username.None?
  }

  /** Login refuses a request lacking email or password; username is not
      needed. */
  predicate LoginRejected(req: AuthRequest) {
    req.email.None? || req.password.None?
  }

  /** Create-post refuses a missing body, a null or blank title or type, and
      a null latitude, longitude or user id. */
  predicate PostRejected(body: Option<Post>) {
    body.None?
    || NullOrBlank(body.value.title) || NullOrBlank(body.value.postType)
    || body.value.lat.None? || body.value.lng.None? || body.value.userId.None?
  }

  const MissingRegisterFields := "Missing required fields"
  const MissingLoginFields := "Missing email or password"
  const MissingPostFields := "Missing required fields: userId, type, title, lat, lng"

  /** A post passes the check exactly when it has every required field and
      its title and type each hold at least one non-whitespace character. */
  lemma AcceptedPostHasContent(p: Post)
    ensures !PostRejected(Some(p)) <==>
              p.userId.Some? && p.lat.Some? && p.lng.Some?
              && p.title.Some? && (exists i :: 0 <= i < |p.title.value| && !IsWhitespace(p.title.value[i]))
              && p.postType.Some? && (exists i :: 0 <= i < |p.postType.value| && !IsWhitespace(p.postType.value[i]))
  {
  }

  /** Blankness on a few titles: empty and whitespace-only strings are
      blank, a non-breaking space is not, and neither is ordinary text. */
  lemma BlankExamples()
    ensures IsBlank("") && IsBlank(" \t\n") && IsBlank("\U{3000}")
    ensures !IsBlank("\U{00A0}") && !IsBlank(" Lost Dog ")
  {
    assert !IsWhitespace("\U{00A0}"[0]);
    assert !IsWhitespace(" Lost Dog "[1]);
  }

  /** A typical lost-pet post (title "Lost Dog", type "lost_pet",
      coordinates and user id present) is accepted, and the same post
      without a latitude is refused. */
  lemma ExamplePostChecks(lat: Double, lng: Double)
    ensures var p := Post(None, Some(1), Some("lost_pet"), Some("Lost Dog"), None,
                          Some(lat), Some(lng), None, None, None, None);
            !PostRejected(Some(p)) && PostRejected(Some(p.(lat := None)))
  {
    assert !IsWhitespace("lost_pet"[0]);
    assert !IsWhitespace("Lost Dog"[0]);
  }
}
