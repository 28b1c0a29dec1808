/** Member registration: `join` refuses a member whose name is already taken
    and otherwise saves it and returns the id the store gave it. The member
    store is an in-memory sequence of saved members with an id generator. */
module Members {
  import opened Wrappers

  /** A member: `id` is `None` (Java `null`) until the member is saved. */
  datatype Member = Member(id: Option<int>, name: string)

  datatype ServiceException = IllegalStateException(message: string)

  /** Message of the exception thrown for a duplicate name ("member already exists"). */
  const DuplicateMemberMessage := "이미 존재하는 회원입니다."

  /** Some member in `members` has the name `name`. */
  predicate HasName(members: seq<Member>, name: string) {
    exists i :: 0 <= i < |members| && members[i].name == name
  }

  /** No two members in `members` share a name. */
  predicate DistinctNames(members: seq<Member>) {
    forall i, j :: 0 <= i < j < |members| ==> members[i].name != members[j].name
  }

  /** The query by name: the members called `name`, in store order. */
  function WithName(members: seq<Member>, name: string): (found: seq<Member>)
    ensures forall m :: m in found <==> m in members && m.name == name
  {
    if members == [] then []
    else
      var last := members[|members| - 1];
      WithName(members[..|members| - 1], name) + (if last.name == name then [last] else [])
  }

  /** The lookup by primary key: the member whose id is `memberId`, or `None`. */
  function WithId(members: seq<Member>, memberId: int): (found: Option<Member>)
    ensures found.Some? <==> exists i :: 0 <= i < |members| && members[i].id == Some(memberId)
    ensures found.Some? ==> found.value in members && found.value.id == Some(memberId)
  {
    if members == [] then None
    else if members[0].id == Some(memberId) then Some(members[0])
    else WithId(members[1..], memberId)
  }

  /** The member store. Every saved member has an id below `nextId`, and no
      two saved members share an id. */
  class MemberRepository {
    var members: seq<Member>
    var nextId: int

    ghost predicate Valid()
      reads this
    {
      && (forall i :: 0 <= i < |members| ==> members[i].id.Some? && members[i].id.value < nextId)
      && (forall i, j :: 0 <= i < j < |members| ==> members[i].id != members[j].id)
    }

    constructor ()
      ensures Valid() && members == []
    {
      members, nextId := [], 0;
    }

    /** Persists a new member under a fresh id and returns that id. */
    method Save(member: Member) returns (id: int)
      requires Valid() && member.id == None
      modifies this
      ensures Valid()
      ensures id == old(nextId) && nextId == old(nextId) + 1
      ensures members == old(members) + [member.(id := Some(id))]
    {
      id := nextId;
      members := members + [member.(id := Some(id))];
      nextId := nextId + 1;
    }

    method FindByName(name: string) returns (found: seq<Member>)
      ensures found == WithName(members, name)
    {
      found := WithName(members, name);
    }

    method FindAll() returns (all: seq<Member>)
      ensures all == members
    {
      all := members;
    }

    method FindOne(memberId: int) returns (found: Option<Member>)
      ensures found == WithId(members, memberId)
    {
      found := WithId(members, memberId);
    }
  }

  /** The member service. Its invariant adds to the store's that member names
      are pairwise distinct, which holds as long as `Join` is the only way
      members are added. */
  class MemberService {
    const memberRepository: MemberRepository

    ghost predicate Valid()
      reads memberRepository
    {
      memberRepository.Valid() && DistinctNames(memberRepository.members)
    }

    constructor (memberRepository: MemberRepository)
      requires memberRepository.Valid() && DistinctNames(memberRepository.members)
      ensures this.memberRepository == memberRepository && Valid()
    {
      this.memberRepository := memberRepository;
    }

    /** Registers `member`: throws IllegalStateException, leaving the store
        as it was, when the name is taken; otherwise saves the member and
        returns its new id. */
    method Join(member: Member) returns (r: Result<int, ServiceException>)
      requires Valid() && member.id == None
      modifies memberRepository
      ensures Valid()
      ensures r.Failure? <==> HasName(old(memberRepository.members), member.name)
      ensures r.Failure? ==>
                && r.error == IllegalStateException(DuplicateMemberMessage)
                && memberRepository.members == old(memberRepository.members)
                && memberRepository.nextId == old(memberRepository.nextId)
      ensures r.Success? ==>
                && memberRepository.members == old(memberRepository.members) + [member.(id := Some(r.value))]
                && forall i :: 0 <= i < |old(memberRepository.members)| ==>
                     old(memberRepository.members)[i].id != Some(r.value)
    {
      var outcome := ValidateDuplicateMember(member);
      if outcome.Fail? {
        return Failure(outcome.error);
      }
      var id := memberRepository.Save(member);
      return Success(id);
    }

    /** Throws IllegalStateException exactly when a stored member already
        has `member`'s name. */
    method ValidateDuplicateMember(member: Member) returns (outcome: Outcome<ServiceException>)
      ensures outcome.Fail? <==> HasName(memberRepository.members, member.name)
      ensures outcome.Fail? ==> outcome.error == IllegalStateException(DuplicateMemberMessage)
    {
      var findMembers := memberRepository.FindByName(member.name);
      if findMembers != [] {
        assert findMembers[0] in findMembers;
        return Fail(IllegalStateException(DuplicateMemberMessage));
      }
      return Pass;
    }

    /** All stored members, in store order. */
    method FindMembers() returns (members: seq<Member>)
      ensures members == memberRepository.members
    {
      members := memberRepository.FindAll();
    }

    /** The stored member with id `memberId`, or `None` when there is none. */
    method FindOne(memberId: int) returns (found: Option<Member>)
      ensures found.Some? <==> exists i :: 0 <= i < |memberRepository.members| &&
                                          memberRepository.members[i].id == Some(memberId)
      ensures found.Some? ==> found.value in memberRepository.members && found.value.id == Some(memberId)
    {
      found := memberRepository.FindOne(memberId);
    }
  }
}
