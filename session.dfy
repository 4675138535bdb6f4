/**
 * The per-user session: the chat log, the farmer profile and the flag that
 * says a profile has been saved. The profile is written whole by a save
 * that checks the required fields, and emptied whole by a clear.
 */
module Session {
  import opened Options
  import Chatbot

  datatype Role = User | Bot

  datatype Message = Message(role: Role, content: string)

  /** What the profile form holds when Save is pressed. */
  datatype ProfileForm = ProfileForm(
    name: string,
    age: int,
    phone: string,
    state: string,
    district: string,
    land: real,
    soil: string,
    irrigation: seq<string>,
    crops: seq<string>,
    experience: int,
    farmingType: string,
    goals: seq<string>)

  /** A saved profile: the form's fields and the date it was saved on. */
  datatype Profile = Profile(form: ProfileForm, createdDate: string)

  /**
   * The fields marked required: a name, a phone number and a positive land
   * size. An empty name or phone is false in Python, so a form missing any
   * of the three is refused.
   */
  predicate RequiredFieldsPresent(form: ProfileForm): (ok: bool)
    ensures ok ==> |form.name| >= 1 && |form.phone| >= 1 && form.land > 0.0
    ensures form.name == [] || form.phone == [] || form.land <= 0.0 ==> !ok
  {
    form.name != "" && form.phone != "" && form.land > 0.0
  }

  class SessionState {
    var chatHistory: seq<Message>
    var profile: Option<Profile>
    var profileComplete: bool

    /** The flag is set exactly when a profile is stored, and only forms with the required fields are stored. */
    ghost predicate Valid()
      reads this
    {
      (profileComplete <==> profile.Some?) &&
      (profile.Some? ==> RequiredFieldsPresent(profile.value.form))
    }

    /** A fresh session: no messages, an empty profile, not complete. */
    constructor ()
      ensures Valid()
      ensures chatHistory == [] && profile == None && !profileComplete
    {
      chatHistory := [];
      profile := None;
      profileComplete := false;
    }

    /**
     * Send on the chat page: a non-empty question is logged, followed by the
     * chatbot's answer to it; an empty one changes nothing.
     */
    method SendChat(userMessage: string)
      requires Valid()
      modifies this
      ensures Valid()
      ensures userMessage == "" ==> chatHistory == old(chatHistory)
      ensures userMessage != "" ==>
        chatHistory == old(chatHistory) + [Message(User, userMessage), Message(Bot, Chatbot.Reply(userMessage))]
      ensures profile == old(profile) && profileComplete == old(profileComplete)
    {
      if userMessage != "" {
        chatHistory := chatHistory + [Message(User, userMessage)];
        var response := Chatbot.GetChatbotResponse(userMessage);
        chatHistory := chatHistory + [Message(Bot, response)];
      }
    }

    /** Clear Chat (on the chat page and under settings): the log is emptied. */
    method ClearChat()
      requires Valid()
      modifies this
      ensures Valid()
      ensures chatHistory == []
      ensures profile == old(profile) && profileComplete == old(profileComplete)
    {
      chatHistory := [];
    }

    /**
     * Save Profile: with the required fields present the whole profile is
     * replaced, stamped with today's date, and marked complete; otherwise
     * nothing changes and saved is false.
     */
    method SaveProfile(form: ProfileForm, today: string) returns (saved: bool)
      requires Valid()
      modifies this
      ensures Valid()
      ensures saved <==> RequiredFieldsPresent(form)
      ensures saved ==> profile == Some(Profile(form, today)) && profileComplete
      ensures !saved ==> profile == old(profile) && profileComplete == old(profileComplete)
      ensures chatHistory == old(chatHistory)
    {
      saved := form.name != "" && form.phone != "" && form.land > 0.0;
      if saved {
        profile := Some(Profile(form, today));
        profileComplete := true;
      }
    }

    /** Clear Profile: the profile is emptied and no longer complete. */
    method ClearProfile()
      requires Valid()
      modifies this
      ensures Valid()
      ensures profile == None && !profileComplete
      ensures chatHistory == old(chatHistory)
    {
      profile := None;
      profileComplete := false;
    }
  }

  datatype Badge = NewFarmer | IntermediateFarmer | ExperiencedFarmer | ExpertFarmer

  /** The badge for the years of experience on the form. */
  function BadgeFor(experience: int): (b: Badge)
    ensures b == ExpertFarmer <==> experience >= 20
    ensures b == ExperiencedFarmer <==> 10 <= experience < 20
    ensures b == IntermediateFarmer <==> 5 <= experience < 10
    ensures b == NewFarmer <==> experience < 5
  {
    if experience >= 20 then ExpertFarmer
    else if experience >= 10 then ExperiencedFarmer
    else if experience >= 5 then IntermediateFarmer
    else NewFarmer
  }

  function Rank(b: Badge): nat
  {
    match b
    case NewFarmer => 0
    case IntermediateFarmer => 1
    case ExperiencedFarmer => 2
    case ExpertFarmer => 3
  }

  /** More experience never earns a lower badge. */
  lemma BadgeMonotone(less: int, more: int)
    requires less <= more
    ensures Rank(BadgeFor(less)) <= Rank(BadgeFor(more))
  {
  }
}
