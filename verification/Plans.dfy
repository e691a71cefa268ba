/** What the pipeline decides about one email before it touches Trello or the ledger. */
module Plans {
  import opened Options
  import opened ClaimData

  const DECLARACION_MARKER := "Declaración de siniestro a colaborador"
  const ASISTENCIA_MARKER := "Solicitud de asistencia a colaborador"
  const COMUNICACION_MARKER := "Comunicación a colaborador"
  const GESTION_PERITO_MARKER := "Gestión con Perito"

  datatype ClaimType =
    | DeclaracionSiniestro
    | DeclaracionUrgente
    | AsistenciaBrico
    | AsistenciaEnvioProfesionales
    | AsistenciaElectricidadEmergencia
    | Comunicacion
    | GestionConPerito

  const COMMENT_TYPES := {Comunicacion, GestionConPerito}

  /** The value fields the pipeline itself reads. */
  datatype Fields = Fields(town: Option<string>, owner: Option<string>, observaciones: Option<string>)

  /** A fetched message: the domain of its From address, its subject and its plain body. */
  datatype Email = Email(domain: Option<string>, subject: Option<string>, body: string)

  /** What the decision depends on besides the email: Python's character tables, the allowlist,
      and the extractor, a function that may fail. */
  datatype Setting = Setting(
    digit: DigitClass,
    space: char -> bool,
    upper: string -> string,
    lower: string -> string,
    allowed: set<string>,
    extract: (ClaimType, string, string) -> Option<Fields>)

  /** `Card` has no name when the town is missing: building one then raises.  A rejected email has
      asked the extractor or not. */
  datatype Plan =
    | Reject(asked: bool)
    | Comment(ref: Ref, text: string)
    | Card(ref: Ref, name: Option<string>, text: string)

  predicate OccursAt(text: string, part: string, i: nat) {
    i + |part| <= |text| && text[i..i + |part|] == part
  }

  predicate Contains(text: string, part: string) {
    exists i | 0 <= i <= |text| :: OccursAt(text, part, i)
  }

  /** The outcome of `ClaimType.from_subject`: it can raise, or find no type. */
  datatype Classified = Raises | NoType | Type(kind: ClaimType)

  function FromSubject(at: Setting, subject: string, body: string): Classified {
    if subject == "" then NoType
    else if Contains(subject, GESTION_PERITO_MARKER) then Type(GestionConPerito)
    else if Contains(subject, DECLARACION_MARKER) then
      if Contains(at.lower(subject), "urgente") then Type(DeclaracionUrgente) else Type(DeclaracionSiniestro)
    else if Contains(subject, ASISTENCIA_MARKER) then
      if Contains(at.lower(body), at.lower("SERVICIO BRICO HOGAR")) then Type(AsistenciaBrico)
      else if Contains(at.lower(body), at.lower("ENVÍO DE PROFESIONALES")) then Type(AsistenciaEnvioProfesionales)
      else if Contains(at.lower(body), at.lower("ELECTRICIDAD DE EMERGENCIA")) then Type(AsistenciaElectricidadEmergencia)
      else Raises
    else if Contains(subject, COMUNICACION_MARKER) then Type(Comunicacion)
    else NoType
  }

  function Printed(value: Option<string>): string {
    match value
    case Some(v) => v
    case None => "None"
  }

  function CardComment(at: Setting, kind: ClaimType, town: string): string {
    match kind
    case AsistenciaBrico => "@board Nueva brico asistencia en " + at.upper(town)
    case AsistenciaEnvioProfesionales => "@board Nuevo envío de profesionales en " + at.upper(town)
    case DeclaracionUrgente => "@board Parte URGENTE en " + at.upper(town)
    case _ => "@board Parte nuevo en " + at.upper(town)
  }

  predicate Blank(at: Setting, text: Option<string>) {
    text.None? || forall i | 0 <= i < |text.value| :: at.space(text.value[i])
  }

  /** The decisions of `_process_one` up to its first Trello or ledger call, in its order. */
  function PlanOf(at: Setting, email: Email): Plan {
    if email.domain.None? || email.domain.value !in at.allowed then Reject(false)
    else
      var subject := if email.subject.Some? then email.subject.value else "";
      if !Contains(subject, DECLARACION_MARKER) && !Contains(subject, ASISTENCIA_MARKER)
         && !Contains(subject, COMUNICACION_MARKER) && !Contains(subject, GESTION_PERITO_MARKER)
      then Reject(false)
      else
        match FromSubject(at, subject, email.body)
        case Raises => Reject(false)
        case NoType => Reject(false)
        case Type(kind) =>
          match ParseClaimRef(at.digit, subject, kind == GestionConPerito)
          case None => Reject(false)
          case Some(ref) => PlanFor(at, kind, ref, at.extract(kind, subject, email.body))
  }

  function PlanFor(at: Setting, kind: ClaimType, ref: Ref, extracted: Option<Fields>): Plan {
    if extracted.None? then Reject(true)
    else
      var fields := extracted.value;
      if kind in COMMENT_TYPES then
        if kind == GestionConPerito && Blank(at, fields.observaciones) then Reject(true)
        else Comment(ref, "@board " + Printed(fields.observaciones))
      else if fields.town.None? then Card(ref, None, "")
      else Card(ref, Some(CardName(at.upper(fields.town.value), ref, Printed(fields.owner))),
                CardComment(at, kind, fields.town.value))
  }

  /** The ref `_claim_ref_of` logs, from the subject alone. */
  function LoggedRef(at: Setting, email: Email): Option<Ref> {
    var subject := if email.subject.Some? then email.subject.value else "";
    ParseClaimRef(at.digit, subject, Contains(subject, GESTION_PERITO_MARKER))
  }

  /** A plan the pipeline can be handed: its ref is one, and a card name carries it. */
  ghost predicate WellFormed(d: DigitClass, plan: Plan) {
    match plan
    case Reject(_) => true
    case Comment(ref, _) => IsRef(d, ref)
    case Card(ref, name, _) => IsRef(d, ref) && (name.Some? ==> Mentions(d, name.value, ref.Text()))
  }

  lemma StripKeepsDigits(s: string)
    requires AllIn(ASCII_DIGIT, s)
    ensures AllIn(ASCII_DIGIT, StripZeros(s))
  {
  }

  lemma {:induction false} FoundIsDigits(afterWord: bool, s: string)
    requires FindSlashless(afterWord, s).Some?
    ensures IsRef(ASCII_DIGIT, FindSlashless(afterWord, s).value)
    decreases |s|
  {
    if SlashlessHere(afterWord, s) {
      var n := Run(ASCII_DIGIT, s);
      assert forall i | 0 <= i < n :: s[..n][i] == s[i];
    } else {
      FoundIsDigits(Word(s[0]), s[1..]);
    }
  }

  lemma ParsedRefIsRef(d: DigitClass, subject: string, slashless: bool)
    requires forall c | ASCII_DIGIT(c) :: d(c)
    requires ParseClaimRef(d, subject, slashless).Some?
    ensures IsRef(d, ParseClaimRef(d, subject, slashless).value)
  {
    if ParseSlashed(d, subject).Some? {
      ParsedIsRef(d, subject);
    } else {
      FoundIsDigits(false, subject);
      StripKeepsDigits(FindSlashless(false, subject).value.number);
    }
  }

  /** Every plan is well formed, and its ref is the one the log line of the email shows. */
  lemma PlansAreWellFormed(at: Setting, email: Email)
    requires (forall c | ASCII_DIGIT(c) :: at.digit(c)) && !at.digit('/') && !at.digit(' ')
    ensures WellFormed(at.digit, PlanOf(at, email))
    ensures !PlanOf(at, email).Reject? ==> LoggedRef(at, email) == Some(PlanOf(at, email).ref)
  {
    var plan := PlanOf(at, email);
    if !plan.Reject? {
      var subject := if email.subject.Some? then email.subject.value else "";
      assert Contains("", GESTION_PERITO_MARKER) == false;
      var kind := FromSubject(at, subject, email.body).kind;
      assert kind == GestionConPerito <==> Contains(subject, GESTION_PERITO_MARKER);
      ParsedRefIsRef(at.digit, subject, kind == GestionConPerito);
      if plan.Card? && plan.name.Some? {
        var fields := at.extract(kind, subject, email.body).value;
        CardAnswersTo(at.digit, at.upper(fields.town.value), plan.ref, Printed(fields.owner), plan.ref);
      }
    }
  }

  /** The guard on the markers and the classification agree: a subject has a type, or its body lacks
      a service, exactly when a marker is in it; the empty subject has neither. */
  lemma MarkersMeanType(at: Setting, subject: string, body: string)
    ensures FromSubject(at, subject, body) != NoType
            <==> Contains(subject, DECLARACION_MARKER) || Contains(subject, ASISTENCIA_MARKER)
                 || Contains(subject, COMUNICACION_MARKER) || Contains(subject, GESTION_PERITO_MARKER)
  {
    if subject == "" {
      EmptyHasNone(DECLARACION_MARKER);
      EmptyHasNone(ASISTENCIA_MARKER);
      EmptyHasNone(COMUNICACION_MARKER);
      EmptyHasNone(GESTION_PERITO_MARKER);
    }
    hide Contains;
  }

  lemma EmptyHasNone(part: string)
    requires part != ""
    ensures !Contains("", part)
  {
  }

  // ----- What a plan means -----

  /** The email is of this kind: by the marker that wins in its subject, the word or the service behind it. */
  ghost predicate Reads(at: Setting, subject: string, body: string, kind: ClaimType) {
    var gestion, declaracion := Contains(subject, "Gestión con Perito"), Contains(subject, "Declaración de siniestro a colaborador");
    var asistencia, comunicacion := Contains(subject, "Solicitud de asistencia a colaborador"), Contains(subject, "Comunicación a colaborador");
    var brico := Contains(at.lower(body), at.lower("SERVICIO BRICO HOGAR"));
    var envio := Contains(at.lower(body), at.lower("ENVÍO DE PROFESIONALES"));
    var electricidad := Contains(at.lower(body), at.lower("ELECTRICIDAD DE EMERGENCIA"));
    match kind
    case GestionConPerito => gestion
    case DeclaracionUrgente => !gestion && declaracion && Contains(at.lower(subject), "urgente")
    case DeclaracionSiniestro => !gestion && declaracion && !Contains(at.lower(subject), "urgente")
    case AsistenciaBrico => !gestion && !declaracion && asistencia && brico
    case AsistenciaEnvioProfesionales => !gestion && !declaracion && asistencia && !brico && envio
    case AsistenciaElectricidadEmergencia =>
      !gestion && !declaracion && asistencia && !brico && !envio && electricidad
    case Comunicacion => !gestion && !declaracion && !asistencia && comunicacion
  }

  /** Classification finds a kind exactly when the email reads as one, and that one. */
  lemma KindIsRead(at: Setting, subject: string, body: string, kind: ClaimType)
    ensures FromSubject(at, subject, body) == Type(kind) <==> Reads(at, subject, body, kind)
  {
    if subject == "" {
      EmptyHasNone(DECLARACION_MARKER);
      EmptyHasNone(ASISTENCIA_MARKER);
      EmptyHasNone(COMUNICACION_MARKER);
      EmptyHasNone(GESTION_PERITO_MARKER);
    }
    hide Contains;
  }

  /** A trusted sender, a kind and a reference: all that is asked of an email before its extraction. */
  ghost predicate Claims(at: Setting, email: Email, kind: ClaimType, ref: Ref) {
    var subject := email.subject.UnwrapOr("");
    && email.domain.Some? && email.domain.value in at.allowed
    && Reads(at, subject, email.body, kind)
    && ParseClaimRef(at.digit, subject, kind == GestionConPerito) == Some(ref)
  }

  /** Nothing but white space. */
  ghost predicate NoNotice(at: Setting, text: Option<string>) {
    forall c | c in text.UnwrapOr("") :: at.space(c)
  }

  /** What the extractor's answer makes of an email of this kind: a comment, or a card with its name and
      the comment that announces it. */
  ghost predicate Answered(at: Setting, kind: ClaimType, ref: Ref, answer: Option<Fields>, plan: Plan) {
    if answer.None? then plan == Reject(true)
    else
      var town, owner, notice := answer.value.town, answer.value.owner, answer.value.observaciones;
      if kind == GestionConPerito && NoNotice(at, notice) then plan == Reject(true)
      else if kind == GestionConPerito || kind == Comunicacion then
        plan == Comment(ref, "@board " + notice.UnwrapOr("None"))
      else
        && plan.Card? && plan.ref == ref && (plan.name.Some? <==> town.Some?)
        && (town.Some? ==>
              && plan.name.value == at.upper(town.value) + " " + ref.year + "/" + ref.number + " " + owner.UnwrapOr("None")
              && plan.text == Announcement(kind) + at.upper(town.value))
  }

  /** An email is turned away without a look at its content unless its sender is allowed, a marker wins
      and a reference is found; what the extractor then answers decides the rest. */
  lemma PlanMeans(at: Setting, email: Email)
    ensures PlanOf(at, email) != Reject(false) <==> exists kind, ref :: Claims(at, email, kind, ref)
    ensures forall kind, ref | Claims(at, email, kind, ref) ::
      Answered(at, kind, ref, at.extract(kind, email.subject.UnwrapOr(""), email.body), PlanOf(at, email))
  {
    var subject := email.subject.UnwrapOr("");
    forall kind: ClaimType ensures FromSubject(at, subject, email.body) == Type(kind) <==> Reads(at, subject, email.body, kind) {
      KindIsRead(at, subject, email.body, kind);
    }
    MarkersMeanType(at, subject, email.body);
    hide FromSubject, Reads, Contains, ParseClaimRef, PlanFor;
    if email.domain.Some? && email.domain.value in at.allowed {
      match FromSubject(at, subject, email.body) {
        case Raises =>
        case NoType =>
        case Type(kind) =>
          var parsed := ParseClaimRef(at.digit, subject, kind == GestionConPerito);
          if parsed.Some? {
            assert Claims(at, email, kind, parsed.value);
            PlanForMeans(at, kind, parsed.value, at.extract(kind, subject, email.body));
          }
      }
    }
  }

  /** What the comment on a new card says before the town. */
  ghost function Announcement(kind: ClaimType): string {
    match kind
    case AsistenciaBrico => "@board Nueva brico asistencia en "
    case AsistenciaEnvioProfesionales => "@board Nuevo envío de profesionales en "
    case DeclaracionUrgente => "@board Parte URGENTE en "
    case DeclaracionSiniestro => "@board Parte nuevo en "
    case AsistenciaElectricidadEmergencia => "@board Parte nuevo en "
    case Comunicacion => "@board "
    case GestionConPerito => "@board "
  }

  lemma PlanForMeans(at: Setting, kind: ClaimType, ref: Ref, answer: Option<Fields>)
    ensures PlanFor(at, kind, ref, answer) != Reject(false)
    ensures Answered(at, kind, ref, answer, PlanFor(at, kind, ref, answer))
  {
    if answer.Some? {
      var notice := answer.value.observaciones;
      assert Blank(at, notice) == NoNotice(at, notice);
      hide Blank, NoNotice;
      if answer.value.town.Some? {
        var town, owner := at.upper(answer.value.town.value), answer.value.owner.UnwrapOr("None");
        assert CardName(town, ref, owner) == town + " " + ref.year + "/" + ref.number + " " + owner;
      }
    }
  }
}
