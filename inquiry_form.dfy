// The form that opens an inquiry (client/components/FormInstauracaoSindicancia.tsx): the header
// fields, the committee roster and the witness list it edits, the validation run before saving,
// and the rows the save step writes.

module InquiryForm {
  import opened Wrappers
  import opened Text

  /** The committee roles a member can hold. */
  datatype Role = Presidente | SecretarioI | SecretarioII | Membro | Advogado

  /** The role as stored in `funcao_comissao`. */
  function RoleName(role: Role): string {
    match role
    case Presidente => "Presidente"
    case SecretarioI => "Secretário I"
    case SecretarioII => "Secretário II"
    case Membro => "Membro"
    case Advogado => "Advogado"
  }

  /** The roles that must be filled, in the order validation checks them. */
  const MandatoryRoles := [Presidente, SecretarioI, SecretarioII]

  /** A committee member as edited; `funcao` is the committee role. */
  datatype Member = Member(nome: string, cargo: string, funcao: Role, oab: string)

  /** A witness as edited. */
  datatype Witness = Witness(nome: string, cpf: string)

  /** One `atualizarMembro` call: the field named and its new value. */
  datatype MemberEdit = SetNome(nome: string) | SetCargo(cargo: string) | SetFuncao(funcao: Role) | SetOab(oab: string)

  /** One `atualizarTestemunha` call. */
  datatype WitnessField = WitnessNome | WitnessCpf

  function BlankMember(funcao: Role): Member {
    Member("", "", funcao, "")
  }

  const BlankWitness := Witness("", "")

  /** The starting roster: one blank member per mandatory role, in that order. */
  const InitialMembers := [BlankMember(Presidente), BlankMember(SecretarioI), BlankMember(SecretarioII)]

  /** `{ ...m, [field]: value }`: the member with one field replaced. */
  function EditMember(m: Member, edit: MemberEdit): (r: Member)
    ensures r.nome == (if edit.SetNome? then edit.nome else m.nome)
    ensures r.cargo == (if edit.SetCargo? then edit.cargo else m.cargo)
    ensures r.funcao == (if edit.SetFuncao? then edit.funcao else m.funcao)
    ensures r.oab == (if edit.SetOab? then edit.oab else m.oab)
  {
    match edit
    case SetNome(v) => m.(nome := v)
    case SetCargo(v) => m.(cargo := v)
    case SetFuncao(v) => m.(funcao := v)
    case SetOab(v) => m.(oab := v)
  }

  /** `{ ...w, [field]: value }`. */
  function SetWitnessField(w: Witness, field: WitnessField, value: string): (r: Witness)
    ensures r.nome == (if field == WitnessNome then value else w.nome)
    ensures r.cpf == (if field == WitnessCpf then value else w.cpf)
  {
    match field
    case WitnessNome => w.(nome := value)
    case WitnessCpf => w.(cpf := value)
  }

  /** `s.filter((_, i) => i !== index)`: drops position `index` when there is one, keeping the order. */
  function RemoveAt<T>(s: seq<T>, index: int): (r: seq<T>)
    ensures 0 <= index < |s| ==> |r| == |s| - 1
    ensures 0 <= index < |s| ==> forall j :: 0 <= j < |r| ==> r[j] == (if j < index then s[j] else s[j + 1])
    ensures !(0 <= index < |s|) ==> r == s
  {
    if 0 <= index < |s| then s[..index] + s[index + 1..] else s
  }

  /** `members.find(m => m.funcao_comissao === role)`, as a position. */
  function FirstWithRole(ms: seq<Member>, role: Role): (r: Option<nat>)
    ensures r.Some? ==> r.value < |ms| && ms[r.value].funcao == role
    ensures r.Some? ==> forall j :: 0 <= j < r.value ==> ms[j].funcao != role
    ensures r.None? ==> forall j :: 0 <= j < |ms| ==> ms[j].funcao != role
  {
    if ms == [] then None
    else if ms[0].funcao == role then Some(0)
    else match FirstWithRole(ms[1..], role)
      case None => None
      case Some(k) => Some(k + 1)
  }

  /** The first member holding `role` exists and has a name and a position. */
  predicate RoleFilled(ms: seq<Member>, role: Role) {
    var i := FirstWithRole(ms, role);
    i.Some? && !IsBlank(ms[i.value].nome) && !IsBlank(ms[i.value].cargo)
  }

  /** Some field of the witness was filled in. */
  predicate WitnessStarted(w: Witness) {
    !IsBlank(w.nome) || !IsBlank(w.cpf)
  }

  /** Both fields of the witness were filled in. */
  predicate WitnessComplete(w: Witness) {
    !IsBlank(w.nome) && !IsBlank(w.cpf)
  }

  /**
   * Fully blank witnesses are ignored; every other one must be complete (the `filter` of started
   * witnesses followed by `every`).
   */
  predicate WitnessesConsistent(ws: seq<Witness>) {
    forall i :: 0 <= i < |ws| && WitnessStarted(ws[i]) ==> WitnessComplete(ws[i])
  }

  /** The reason validation stopped, checked in this order. */
  datatype ValidationError =
    | MissingNumero
    | MissingInstituidorNome
    | MissingInstituidorCpf
    | MissingRole(role: Role)
    | IncompleteWitness

  /** A committee row as saved. */
  datatype SavedMember = SavedMember(nome: string, cargo: string, funcao: Role, oab: Option<string>)

  /** A member is saved when both name and position are filled. */
  predicate MemberFilled(m: Member) {
    !IsBlank(m.nome) && !IsBlank(m.cargo)
  }

  /** The row for a filled member: trimmed fields, a blank OAB number as `null`. */
  function SaveMember(m: Member): (r: SavedMember)
    ensures r.funcao == m.funcao
    ensures r.nome == Trim(m.nome) && r.cargo == Trim(m.cargo)
    ensures r.oab.None? <==> IsBlank(m.oab)
    ensures r.oab.Some? ==> r.oab.value == Trim(m.oab)
  {
    SavedMember(Trim(m.nome), Trim(m.cargo), m.funcao, if Trim(m.oab) != "" then Some(Trim(m.oab)) else None)
  }

  /** The committee rows written: the filled members, in roster order. */
  function MembersToSave(ms: seq<Member>): (r: seq<SavedMember>)
    ensures |r| <= |ms|
    ensures forall s :: s in r ==> s.nome != "" && s.cargo != ""
  {
    if ms == [] then []
    else if MemberFilled(ms[0]) then [SaveMember(ms[0])] + MembersToSave(ms[1..])
    else MembersToSave(ms[1..])
  }

  /** Every filled member of the roster has its row among those written. */
  lemma {:induction false} MembersToSaveKeeps(ms: seq<Member>, i: int)
    requires 0 <= i < |ms| && MemberFilled(ms[i])
    ensures SaveMember(ms[i]) in MembersToSave(ms)
  {
    var rest := MembersToSave(ms[1..]);
    if i == 0 {
      assert MembersToSave(ms) == [SaveMember(ms[0])] + rest;
    } else {
      MembersToSaveKeeps(ms[1..], i - 1);
      assert ms[1..][i - 1] == ms[i];
      assert SaveMember(ms[i]) in rest;
      if MemberFilled(ms[0]) {
        assert MembersToSave(ms) == [SaveMember(ms[0])] + rest;
      } else {
        assert MembersToSave(ms) == rest;
      }
    }
  }

  /** The row for a complete witness: both fields trimmed. */
  function SaveWitness(w: Witness): (r: Witness)
    ensures r.nome == Trim(w.nome) && r.cpf == Trim(w.cpf)
  {
    Witness(Trim(w.nome), Trim(w.cpf))
  }

  /** The witness rows written: the complete witnesses, trimmed, in order. */
  function WitnessesToSave(ws: seq<Witness>): (r: seq<Witness>)
    ensures |r| <= |ws|
    ensures forall w :: w in r ==> w.nome != "" && w.cpf != ""
  {
    if ws == [] then []
    else if WitnessComplete(ws[0]) then [SaveWitness(ws[0])] + WitnessesToSave(ws[1..])
    else WitnessesToSave(ws[1..])
  }

  /** Every complete witness has its row among those written. */
  lemma {:induction false} WitnessesToSaveKeeps(ws: seq<Witness>, i: int)
    requires 0 <= i < |ws| && WitnessComplete(ws[i])
    ensures SaveWitness(ws[i]) in WitnessesToSave(ws)
  {
    var rest := WitnessesToSave(ws[1..]);
    var w := SaveWitness(ws[i]);
    if i == 0 {
      assert WitnessesToSave(ws) == [w] + rest;
    } else {
      WitnessesToSaveKeeps(ws[1..], i - 1);
      assert ws[1..][i - 1] == ws[i];
      assert w in rest;
      if WitnessComplete(ws[0]) {
        assert WitnessesToSave(ws) == [SaveWitness(ws[0])] + rest;
      } else {
        assert WitnessesToSave(ws) == rest;
      }
    }
  }

  /** Every committee row written comes from a filled member of the roster. */
  lemma {:induction false} MembersToSaveFrom(ms: seq<Member>)
    ensures forall s :: s in MembersToSave(ms) ==>
              exists i :: 0 <= i < |ms| && MemberFilled(ms[i]) && s == SaveMember(ms[i])
  {
    if ms != [] {
      MembersToSaveFrom(ms[1..]);
      forall s | s in MembersToSave(ms)
        ensures exists i :: 0 <= i < |ms| && MemberFilled(ms[i]) && s == SaveMember(ms[i])
      {
        if MemberFilled(ms[0]) && s == SaveMember(ms[0]) {
          assert 0 < |ms| && MemberFilled(ms[0]);
        } else {
          assert s in MembersToSave(ms[1..]);
          var j :| 0 <= j < |ms[1..]| && MemberFilled(ms[1..][j]) && s == SaveMember(ms[1..][j]);
          assert ms[1..][j] == ms[j + 1];
        }
      }
    }
  }

  /**
   * The rows follow the roster's order: saving two stretches of the roster gives the rows of the
   * first, then those of the second; a single member gives its row iff it is filled.
   */
  lemma {:induction false} MembersToSaveInOrder(a: seq<Member>, b: seq<Member>)
    ensures MembersToSave(a + b) == MembersToSave(a) + MembersToSave(b)
    ensures forall m :: MembersToSave([m]) == if MemberFilled(m) then [SaveMember(m)] else []
  {
    if a != [] {
      assert (a + b)[1..] == a[1..] + b;
      MembersToSaveInOrder(a[1..], b);
    } else {
      assert a + b == b;
    }
    forall m ensures MembersToSave([m]) == if MemberFilled(m) then [SaveMember(m)] else [] {
      assert [m][1..] == [];
    }
  }

  /** Every witness row written comes from a complete witness of the list. */
  lemma {:induction false} WitnessesToSaveFrom(ws: seq<Witness>)
    ensures forall w :: w in WitnessesToSave(ws) ==>
              exists i :: 0 <= i < |ws| && WitnessComplete(ws[i]) && w == SaveWitness(ws[i])
  {
    if ws != [] {
      WitnessesToSaveFrom(ws[1..]);
      forall w | w in WitnessesToSave(ws)
        ensures exists i :: 0 <= i < |ws| && WitnessComplete(ws[i]) && w == SaveWitness(ws[i])
      {
        if WitnessComplete(ws[0]) && w == SaveWitness(ws[0]) {
          assert 0 < |ws| && WitnessComplete(ws[0]);
        } else {
          assert w in WitnessesToSave(ws[1..]);
          var j :| 0 <= j < |ws[1..]| && WitnessComplete(ws[1..][j]) && w == SaveWitness(ws[1..][j]);
          assert ws[1..][j] == ws[j + 1];
        }
      }
    }
  }

  /** The witness rows follow the list's order, as the committee rows do. */
  lemma {:induction false} WitnessesToSaveInOrder(a: seq<Witness>, b: seq<Witness>)
    ensures WitnessesToSave(a + b) == WitnessesToSave(a) + WitnessesToSave(b)
    ensures forall w :: WitnessesToSave([w]) == if WitnessComplete(w) then [SaveWitness(w)] else []
  {
    if a != [] {
      assert (a + b)[1..] == a[1..] + b;
      WitnessesToSaveInOrder(a[1..], b);
    } else {
      assert a + b == b;
    }
    forall w ensures WitnessesToSave([w]) == if WitnessComplete(w) then [SaveWitness(w)] else [] {
      assert [w][1..] == [];
    }
  }

  /** One insert of the save step: the inquiry header, the committee rows, or the witness rows. */
  datatype Insert =
    | HeaderInsert(numero: string, nomeInstituidor: string, cpfInstituidor: string)
    | MembersInsert(members: seq<SavedMember>)
    | WitnessesInsert(witnesses: seq<Witness>)

  /** What the store answers to each of the three inserts: `None` when it accepts it, else its error message. */
  datatype StoreAnswers = StoreAnswers(header: Option<string>, members: Option<string>, witnesses: Option<string>)

  /** How `handleSalvar` ends: validation failed, an insert was refused, or everything was stored. */
  datatype SaveOutcome = Invalid | Refused(error: string) | Saved

  /** The store's answer to one insert. */
  function Refusal(i: Insert, answers: StoreAnswers): Option<string> {
    match i
    case HeaderInsert(_, _, _) => answers.header
    case MembersInsert(_) => answers.members
    case WitnessesInsert(_) => answers.witnesses
  }

  /** The inserts that reach the store, in order: those attempted, less the last when it was refused. */
  function Stored(attempts: seq<Insert>, outcome: SaveOutcome): seq<Insert> {
    if outcome.Refused? && attempts != [] then attempts[..|attempts| - 1] else attempts
  }

  /** The inserts for a form, in order: the header, then each table that has rows. */
  function SavePlan(numero: string, nomeInstituidor: string, cpfInstituidor: string,
                    members: seq<SavedMember>, witnesses: seq<Witness>): (r: seq<Insert>)
    ensures |r| >= 1 && r[0] == HeaderInsert(numero, nomeInstituidor, cpfInstituidor)
    ensures MembersInsert(members) in r <==> members != []
    ensures WitnessesInsert(witnesses) in r <==> witnesses != []
    ensures |r| == 1 + (if members != [] then 1 else 0) + (if witnesses != [] then 1 else 0)
  {
    [HeaderInsert(numero, nomeInstituidor, cpfInstituidor)]
      + (if members != [] then [MembersInsert(members)] else [])
      + (if witnesses != [] then [WitnessesInsert(witnesses)] else [])
  }

  /** The form's state. */
  class Form {
    var numero: string
    var nomeInstituidor: string
    var cpfInstituidor: string
    var membros: seq<Member>
    var testemunhas: seq<Witness>

    /** The roster never has fewer than the three mandatory places. */
    predicate Valid()
      reads this
    {
      |membros| >= 3
    }

    /** Everything `validar` checks, in one predicate. */
    predicate Complete()
      reads this
    {
      && !IsBlank(numero) && !IsBlank(nomeInstituidor) && !IsBlank(cpfInstituidor)
      && (forall k :: 0 <= k < |MandatoryRoles| ==> RoleFilled(membros, MandatoryRoles[k]))
      && WitnessesConsistent(testemunhas)
    }

    constructor ()
      ensures Valid()
      ensures numero == "" && nomeInstituidor == "" && cpfInstituidor == ""
      ensures membros == InitialMembers && testemunhas == [BlankWitness]
    {
      numero, nomeInstituidor, cpfInstituidor := "", "", "";
      membros := InitialMembers;
      testemunhas := [BlankWitness];
    }

    /** `adicionarMembro`: one more blank member with the plain member role. */
    method AddMember()
      requires Valid()
      modifies this
      ensures Valid()
      ensures membros == old(membros) + [BlankMember(Membro)]
      ensures testemunhas == old(testemunhas)
      ensures numero == old(numero) && nomeInstituidor == old(nomeInstituidor) && cpfInstituidor == old(cpfInstituidor)
    {
      membros := membros + [BlankMember(Membro)];
    }

    /** `removerMembro`: refused while only three places remain; otherwise drops place `index`. */
    method RemoveMember(index: int)
      requires Valid()
      modifies this
      ensures Valid()
      ensures |old(membros)| <= 3 ==> membros == old(membros)
      ensures |old(membros)| > 3 ==> membros == RemoveAt(old(membros), index)
      ensures testemunhas == old(testemunhas)
      ensures numero == old(numero) && nomeInstituidor == old(nomeInstituidor) && cpfInstituidor == old(cpfInstituidor)
    {
      if |membros| <= 3 {
        return;
      }
      membros := RemoveAt(membros, index);
    }

    /** `atualizarMembro`: one field of one member changes. */
    method UpdateMember(index: int, edit: MemberEdit)
      requires Valid() && 0 <= index < |membros|
      modifies this
      ensures Valid()
      ensures membros == old(membros)[index := EditMember(old(membros)[index], edit)]
      ensures testemunhas == old(testemunhas)
      ensures numero == old(numero) && nomeInstituidor == old(nomeInstituidor) && cpfInstituidor == old(cpfInstituidor)
    {
      membros := membros[index := EditMember(membros[index], edit)];
    }

    /** `adicionarTestemunha`: one more blank witness. */
    method AddWitness()
      requires Valid()
      modifies this
      ensures Valid()
      ensures testemunhas == old(testemunhas) + [BlankWitness]
      ensures membros == old(membros)
      ensures numero == old(numero) && nomeInstituidor == old(nomeInstituidor) && cpfInstituidor == old(cpfInstituidor)
    {
      testemunhas := testemunhas + [BlankWitness];
    }

    /** `removerTestemunha`: drops place `index`, even the last witness. */
    method RemoveWitness(index: int)
      requires Valid()
      modifies this
      ensures Valid()
      ensures testemunhas == RemoveAt(old(testemunhas), index)
      ensures membros == old(membros)
      ensures numero == old(numero) && nomeInstituidor == old(nomeInstituidor) && cpfInstituidor == old(cpfInstituidor)
    {
      testemunhas := RemoveAt(testemunhas, index);
    }

    /** `atualizarTestemunha`: one field of one witness changes. */
    method UpdateWitness(index: int, field: WitnessField, value: string)
      requires Valid() && 0 <= index < |testemunhas|
      modifies this
      ensures Valid()
      ensures testemunhas == old(testemunhas)[index := SetWitnessField(old(testemunhas)[index], field, value)]
      ensures membros == old(membros)
      ensures numero == old(numero) && nomeInstituidor == old(nomeInstituidor) && cpfInstituidor == old(cpfInstituidor)
    {
      testemunhas := testemunhas[index := SetWitnessField(testemunhas[index], field, value)];
    }

    /** The loop over the mandatory roles: the first one whose holder is missing or incomplete. */
    method FirstUnfilledRole() returns (r: Option<nat>)
      ensures r.None? <==> forall k :: 0 <= k < |MandatoryRoles| ==> RoleFilled(membros, MandatoryRoles[k])
      ensures r.Some? ==> r.value < |MandatoryRoles| && !RoleFilled(membros, MandatoryRoles[r.value])
      ensures r.Some? ==> forall j :: 0 <= j < r.value ==> RoleFilled(membros, MandatoryRoles[j])
    {
      var k := 0;
      while k < |MandatoryRoles|
        invariant 0 <= k <= |MandatoryRoles|
        invariant forall j :: 0 <= j < k ==> RoleFilled(membros, MandatoryRoles[j])
      {
        var found := FirstWithRole(membros, MandatoryRoles[k]);
        if found.None? || Trim(membros[found.value].nome) == "" || Trim(membros[found.value].cargo) == "" {
          return Some(k);
        }
        k := k + 1;
      }
      return None;
    }

    /**
     * `validar`: the header fields, then each mandatory role in turn, then the witnesses; the
     * first failing check is reported.
     */
    method Validate() returns (r: Option<ValidationError>)
      ensures r.None? <==> Complete()
      ensures r == Some(MissingNumero) <==> IsBlank(numero)
      ensures r == Some(MissingInstituidorNome) <==> !IsBlank(numero) && IsBlank(nomeInstituidor)
      ensures r == Some(MissingInstituidorCpf) <==>
                !IsBlank(numero) && !IsBlank(nomeInstituidor) && IsBlank(cpfInstituidor)
      ensures r.Some? && r.value.MissingRole? ==>
                exists k :: 0 <= k < |MandatoryRoles| && r.value.role == MandatoryRoles[k]
                  && !RoleFilled(membros, MandatoryRoles[k])
                  && forall j :: 0 <= j < k ==> RoleFilled(membros, MandatoryRoles[j])
      ensures r.Some? && r.value.MissingRole? <==>
                !IsBlank(numero) && !IsBlank(nomeInstituidor) && !IsBlank(cpfInstituidor)
                && exists k :: 0 <= k < |MandatoryRoles| && !RoleFilled(membros, MandatoryRoles[k])
      ensures r == Some(IncompleteWitness) <==>
                && !IsBlank(numero) && !IsBlank(nomeInstituidor) && !IsBlank(cpfInstituidor)
                && (forall k :: 0 <= k < |MandatoryRoles| ==> RoleFilled(membros, MandatoryRoles[k]))
                && !WitnessesConsistent(testemunhas)
    {
      if Trim(numero) == "" {
        return Some(MissingNumero);
      }
      if Trim(nomeInstituidor) == "" {
        return Some(MissingInstituidorNome);
      }
      if Trim(cpfInstituidor) == "" {
        return Some(MissingInstituidorCpf);
      }
      var missing := FirstUnfilledRole();
      if missing.Some? {
        return Some(MissingRole(MandatoryRoles[missing.value]));
      }
      if !WitnessesConsistent(testemunhas) {
        return Some(IncompleteWitness);
      }
      return None;
    }

    /** The inserts this form leads to once validation passes. */
    function Plan(): seq<Insert>
      reads this
    {
      SavePlan(Trim(numero), Trim(nomeInstituidor), Trim(cpfInstituidor), MembersToSave(membros), WitnessesToSave(testemunhas))
    }

    /**
     * `handleSalvar`, with the store's answers as a parameter: nothing is attempted unless
     * validation passes; then the header, the committee rows and the witness rows are inserted
     * one after another, and the first refusal ends the save, leaving the earlier inserts stored.
     */
    method Save(answers: StoreAnswers) returns (attempts: seq<Insert>, outcome: SaveOutcome)
      ensures outcome == Invalid <==> !Complete()
      ensures !Complete() ==> attempts == []
      ensures Complete() ==> attempts != [] && attempts <= Plan()
      ensures forall j :: 0 <= j < |attempts| - 1 ==> Refusal(attempts[j], answers).None?
      ensures outcome.Refused? <==> attempts != [] && Refusal(attempts[|attempts| - 1], answers).Some?
      ensures outcome.Refused? ==> Some(outcome.error) == Refusal(attempts[|attempts| - 1], answers)
      ensures outcome == Saved <==> Complete() && forall j :: 0 <= j < |Plan()| ==> Refusal(Plan()[j], answers).None?
      ensures outcome == Saved ==> attempts == Plan()
      ensures Complete() && answers.header.None? && answers.members.Some? && MembersToSave(membros) != [] ==>
                Stored(attempts, outcome) == [HeaderInsert(Trim(numero), Trim(nomeInstituidor), Trim(cpfInstituidor))]
    {
      var problem := Validate();
      if problem.Some? {
        return [], Invalid;
      }
      var plan := Plan();
      var members, witnesses := MembersToSave(membros), WitnessesToSave(testemunhas);
      attempts := [plan[0]];
      if answers.header.Some? {
        return attempts, Refused(answers.header.value);
      }
      if members != [] {
        attempts := attempts + [MembersInsert(members)];
        if answers.members.Some? {
          return attempts, Refused(answers.members.value);
        }
      }
      if witnesses != [] {
        attempts := attempts + [WitnessesInsert(witnesses)];
        if answers.witnesses.Some? {
          return attempts, Refused(answers.witnesses.value);
        }
      }
      assert attempts == plan;
      return attempts, Saved;
    }
  }

  /** A complete roster writes a row for the holder of each mandatory role. */
  lemma CompleteSavesMandatoryRoles(ms: seq<Member>, k: int)
    requires 0 <= k < |MandatoryRoles| && RoleFilled(ms, MandatoryRoles[k])
    ensures exists s :: s in MembersToSave(ms) && s.funcao == MandatoryRoles[k]
  {
    var i := FirstWithRole(ms, MandatoryRoles[k]).value;
    MembersToSaveKeeps(ms, i);
  }

  /** A roster with a filled president always has committee rows, so a valid save inserts them. */
  lemma CompleteRosterInsertsCommittee(ms: seq<Member>, numero: string, nome: string, cpf: string, ws: seq<Witness>)
    requires RoleFilled(ms, Presidente)
    ensures MembersToSave(ms) != []
    ensures MembersInsert(MembersToSave(ms)) in SavePlan(numero, nome, cpf, MembersToSave(ms), ws)
  {
    CompleteSavesMandatoryRoles(ms, 0);
  }

  /** Under consistent witnesses, every witness that was started is written. */
  lemma ConsistentWitnessesAllSaved(ws: seq<Witness>, i: int)
    requires WitnessesConsistent(ws) && 0 <= i < |ws| && WitnessStarted(ws[i])
    ensures SaveWitness(ws[i]) in WitnessesToSave(ws)
  {
    WitnessesToSaveKeeps(ws, i);
  }

  /** The starting roster fills no role, since every name is blank. */
  lemma InitialRosterIncomplete(k: int)
    requires 0 <= k < |MandatoryRoles|
    ensures !RoleFilled(InitialMembers, MandatoryRoles[k])
  {
    var i := FirstWithRole(InitialMembers, MandatoryRoles[k]);
    if i.Some? {
      assert InitialMembers[i.value].nome == "";
    }
  }
}
