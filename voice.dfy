/** The Bengali voice assistant of `VoiceNavigator.jsx`: a keyword rule
    chain that picks the kind of reply for what the user said, the pools of
    replies the chosen one is drawn from, the fixed replies of the quick
    question buttons, and the conversation log. */
module Voice {
  import opened Js
  import opened Text

  /** The kinds of reply, in the order the rules are tried; `Unknown` is the
      fallback when no rule fires. */
  datatype Topic = Greeting | Pain | Cold | Mind | Place | Emergency | Medicine | Thanks | Where | Unknown

  /** The position of each rule in the chain. */
  function Rank(t: Topic): nat
  {
    match t
    case Greeting => 0
    case Pain => 1
    case Cold => 2
    case Mind => 3
    case Place => 4
    case Emergency => 5
    case Medicine => 6
    case Thanks => 7
    case Where => 8
    case Unknown => 9
  }

  /** The keywords each rule looks for. */
  function Keywords(t: Topic): seq<string>
  {
    match t
    case Greeting => ["সালাম", "আদাব", "নমস্কার", "কেমন"]
    case Pain => ["ব্যথা", "জ্বালা", "কামড়", "বিষ"]
    case Cold => ["জ্বর", "সর্দি", "কাশি", "ঠান্ডা"]
    case Mind => ["মন", "চিন্তা", "টেনশন", "ডিপ্রেশন"]
    case Place => ["হাসপাতাল", "ডাক্তার", "ক্লিনিক", "ডাক্তারখানা"]
    case Emergency => ["জরুরি", "ইমারজেন্সি", "অ্যাম্বুলেন্স", "দ্রুত"]
    case Medicine => ["ওষুধ", "মেডিসিন", "পিল"]
    case Thanks => ["ধন্যবাদ", "থ্যাংকস", "শুকরিয়া"]
    case Where => ["কোথায়", "খুঁজি", "পাব"]
    case Unknown => []
  }

  /** The reply pools (`banglaResponses`). */
  const Greetings: seq<string> := [
    "আসসালামু আলাইকুম ভাই! কেমন আছেন আপনি?",
    "ওহে! কেমন আছেন? আজকে আপনাকে দেখে খুব ভালো লাগছে!",
    "আসসালামু আলাইকুম! আপনার দিনটি কেমন যাচ্ছে?"
  ]
  const HealthHelp: seq<string> := [
    "আরে ভাই, কি সমস্যা বলুন তো? আমি চেষ্টা করি সাহায্য করতে।",
    "বলুন বলুন, কি হয়েছে? আমি আপনার কথা শুনছি।",
    "কি সমস্যা হচ্ছে? আমাকে বলুন, দেখা যাক কি করা যায়।"
  ]
  const Symptoms: seq<string> := [
    "ওহো, বুঝতে পারছি। এটা নিয়ে চিন্তা করার কিছু নেই। একটু বিশ্রাম নিন।",
    "আপনার এই লক্ষণগুলো দেখে আমার মনে হচ্ছে ডাক্তার দেখানো উচিত।",
    "এটা সাধারণ সমস্যা। তবে যদি বেশি দিন থাকে তবে ডাক্তার দেখাবেন।"
  ]
  const MentalHealth: seq<string> := [
    "বুঝতে পারছি আপনার মনটা ভালো নেই। এটা কোনো দোষের কথা না ভাই।",
    "মন খারাপ থাকলে কথা বলুন। আমরা আছি আপনার সাথে।",
    "জীবনে সবাইরই এমন সময় আসে। সবার সাথে এমন হয়, আপনি একলা নন।"
  ]
  const Locations: seq<string> := [
    "আপনার কাছের স্বাস্থ্যকেন্দ্রের কথা বলছি? এক্ষুণি দেখিয়ে দিচ্ছি।",
    "হ্যাঁ ভাই, আপনার এলাকার হাসপাতালের তথ্য দিচ্ছি।",
    "নিকটবর্তী ক্লিনিক খুঁজে বের করছি, একটু অপেক্ষা করুন।"
  ]
  const EmergencyPool: seq<string> := [
    "ওমা! এতো জরুরি সমস্যা? দ্রুত হাসপাতালে যান! আমি সাহায্য করছি।",
    "আল্লাহ! এক্ষুণি ৯৯৯ এ কল করুন! আমি রাস্তা দেখিয়ে দিচ্ছি।",
    "জরুরি অবস্থা! দয়া করে শান্ত থাকুন, আমি সাহায্য করছি।"
  ]
  const MedicinePool: seq<string> := [
    "ওষুধের জন্য ফার্মেসিতে যাবেন? নিকটবর্তী ফার্মেসি খুঁজে দিচ্ছি।",
    "ওষুধ সম্পর্কে জানতে চান? সাধারণ ওষুধের তথ্য দিতে পারি।",
    "ডাক্তারের প্রেসক্রিপশন ছাড়া ওষুধ খাবেন না ভাই।"
  ]
  const DefaultPool: seq<string> := [
    "দুঃখিত ভাই, পুরোটা বুঝতে পারি নাই। আবার বলবেন?",
    "ওহো! এটা আমার বোঝার ক্ষমতার বাইরে। অন্য কিছু জিজ্ঞেস করবেন?",
    "আমি এখনো সেটা শিখি নাই। অন্য কিছুর জন্য বলুন তো?"
  ]

  /** The three fixed replies of the chain. */
  const ColdReply: string := "আরে সর্দি-কাশি তো সবারই হয় ভাই! গরম পানি খান, ভালো করে ঘুমান। যদি জ্বর ৩ দিনের বেশি থাকে, তখন ডাক্তার দেখাবেন।"
  const ThanksReply: string := "আপনাকেও ধন্যবাদ ভাই! আল্লাহ আপনার ভালো রাখুন। আর কোনো সমস্যা হলে বলবেন।"
  const WhereReply: string := "আপনি কি হাসপাতাল, ডাক্তার, না ফার্মেসি খুঁজছেন? স্পষ্ট করে বলুন ভাই।"

  /** `s.includes(k)` for some keyword `k`: the `||` chain of one rule. */
  function AnyContains(s: string, keywords: seq<string>): (b: bool)
    ensures b <==> exists k :: 0 <= k < |keywords| && Contains(s, keywords[k])
  {
    if keywords == [] then false
    else if Contains(s, keywords[0]) then
      assert Contains(s, keywords[0]);
      true
    else
      var rest := AnyContains(s, keywords[1..]);
      assert forall k :: 1 <= k < |keywords| ==> keywords[k] == keywords[1..][k - 1];
      rest
  }

  /** The rule for `t` fires on the input (after `toLowerCase()`). */
  predicate Mentions(input: string, t: Topic)
  {
    AnyContains(ToLowerAscii(input), Keywords(t))
  }

  /** The rule chain of `generateCulturallyAppropriateResponse`: the first
      rule, in chain order, whose keywords occur in the input. */
  function Classify(input: string): (t: Topic)
    ensures t != Unknown ==> Mentions(input, t)
    ensures forall u :: Rank(u) < Rank(t) ==> !Mentions(input, u)
  {
    if Mentions(input, Greeting) then Greeting
    else if Mentions(input, Pain) then Pain
    else if Mentions(input, Cold) then Cold
    else if Mentions(input, Mind) then Mind
    else if Mentions(input, Place) then Place
    else if Mentions(input, Emergency) then Emergency
    else if Mentions(input, Medicine) then Medicine
    else if Mentions(input, Thanks) then Thanks
    else if Mentions(input, Where) then Where
    else Unknown
  }

  /** The chain falls through to the default pool exactly when no rule fires. */
  lemma ClassifyUnknown(input: string)
    ensures Classify(input) == Unknown <==> forall t :: t != Unknown ==> !Mentions(input, t)
  {
  }

  /** The fever/cold rule decides exactly when its keywords occur and no
      greeting or pain keyword does. */
  lemma ClassifyCold(input: string)
    ensures Classify(input) == Cold <==> !Mentions(input, Greeting) && !Mentions(input, Pain) && Mentions(input, Cold)
  {
  }

  /** No ASCII capital letter occurs in any of the words. */
  predicate Lowercase(words: seq<string>)
  {
    forall k, i :: 0 <= k < |words| && 0 <= i < |words[k]| ==> !('A' <= words[k][i] <= 'Z')
  }

  /** The keywords of the first three rules are lower case. */
  lemma GreetingPainColdLowercase(t: Topic)
    requires t == Greeting || t == Pain || t == Cold
    ensures Lowercase(Keywords(t))
  {
  }

  /** The keywords of the middle three rules are lower case. */
  lemma MindPlaceEmergencyLowercase(t: Topic)
    requires t == Mind || t == Place || t == Emergency
    ensures Lowercase(Keywords(t))
  {
  }

  /** The keywords of the last three rules are lower case. */
  lemma MedicineThanksWhereLowercase(t: Topic)
    requires t == Medicine || t == Thanks || t == Where
    ensures Lowercase(Keywords(t))
  {
  }

  /** No keyword has an ASCII capital, so lower-casing the input never
      breaks an occurrence of one. */
  lemma KeywordsLowercase(t: Topic, k: nat)
    requires k < |Keywords(t)|
    ensures forall i :: 0 <= i < |Keywords(t)[k]| ==> !('A' <= Keywords(t)[k][i] <= 'Z')
  {
    if t == Greeting || t == Pain || t == Cold {
      GreetingPainColdLowercase(t);
    } else if t == Mind || t == Place || t == Emergency {
      MindPlaceEmergencyLowercase(t);
    } else {
      MedicineThanksWhereLowercase(t);
    }
  }

  /** Saying a keyword of a rule anywhere in a sentence makes the assistant
      answer by that rule or by one earlier in the chain, never by a later
      one or by the default pool. */
  lemma {:induction false} KeywordAnywhere(before: string, after: string, t: Topic, k: nat)
    requires k < |Keywords(t)|
    ensures Classify(before + Keywords(t)[k] + after) != Unknown
    ensures Rank(Classify(before + Keywords(t)[k] + after)) <= Rank(t)
  {
    var w := Keywords(t)[k];
    var input := before + w + after;
    KeywordsLowercase(t, k);
    ToLowerAsciiFixed(w);
    assert ToLowerAscii(input) == ToLowerAscii(before) + w + ToLowerAscii(after);
    ContainsInfix(ToLowerAscii(before), w, ToLowerAscii(after));
    assert Mentions(input, t);
  }

  /** `getRandomResponse`: the pool element at the index `Math.random()`
      picked. */
  function GetRandomResponse(responses: seq<string>, pick: nat): (r: string)
    requires pick < |responses|
    ensures r in responses
  {
    responses[pick]
  }

  /** The replies a topic can give: its pool, or its one fixed reply. */
  function Replies(t: Topic): (rs: seq<string>)
    ensures |rs| == 1 || |rs| == 3
  {
    match t
    case Greeting => Greetings
    case Pain => Symptoms
    case Cold => [ColdReply]
    case Mind => MentalHealth
    case Place => Locations
    case Emergency => EmergencyPool
    case Medicine => MedicinePool
    case Thanks => [ThanksReply]
    case Where => [WhereReply]
    case Unknown => DefaultPool
  }

  /** Every pool holds three non-empty replies. */
  lemma PoolsShape(t: Topic)
    ensures |Replies(t)| == 3 <==> t !in {Cold, Thanks, Where}
    ensures forall i :: 0 <= i < |Replies(t)| ==> |Replies(t)[i]| > 0
    ensures |HealthHelp| == 3 && forall i :: 0 <= i < 3 ==> |HealthHelp[i]| > 0
  {
  }

  /** The reply to what the user said; `pick` is the random index, below
      the size of every pool. */
  function Respond(input: string, pick: nat): (r: string)
    requires pick < 3
    ensures r in Replies(Classify(input))
    ensures Classify(input) == Cold ==> r == ColdReply
    ensures Classify(input) == Unknown ==> r in DefaultPool
  {
    match Classify(input)
    case Greeting => GetRandomResponse(Greetings, pick)
    case Pain => GetRandomResponse(Symptoms, pick)
    case Cold => ColdReply
    case Mind => GetRandomResponse(MentalHealth, pick)
    case Place => GetRandomResponse(Locations, pick)
    case Emergency => GetRandomResponse(EmergencyPool, pick)
    case Medicine => GetRandomResponse(MedicinePool, pick)
    case Thanks => ThanksReply
    case Where => WhereReply
    case Unknown => GetRandomResponse(DefaultPool, pick)
  }

  /** The fixed replies of the quick question buttons. */
  const FeverAnswer: string := "জ্বর হলে প্রথমে থার্মোমিটার দিয়ে জ্বর মাপুন। ১০১ ডিগ্রির বেশি হলে প্যারাসিটামল খান। প্রচুর পানি খান এবং বিশ্রাম নিন। ৩ দিনের বেশি জ্বর থাকলে ডাক্তার দেখান।"
  const HospitalAnswer: string := "আপনার নিকটবর্তী হাসপাতালের তথ্য দিচ্ছি। আপনার বর্তমান লোকেশন জানালে আরও সঠিকভাবে বলতে পারব। সাধারণত ইউনিয়ন স্বাস্থ্য কেন্দ্র বা উপজেলা হাসপাতালে যেতে পারেন।"
  const SadnessAnswer: string := "মন খারাপ নিয়ে চিন্তিত হচ্ছেন? এটা খুব স্বাভাবিক ভাই। কাছের কাউকে কথা বলুন, হালকা হাঁটাহাঁটি করুন। যদি অনেকদিন ধরে মন খারাপ থাকে, তাহলে কাউন্সেলরের সাথে কথা বলুন।"
  const MedicineAnswer: string := "ওষুধ সম্পর্কে জানতে চান? সাধারণ ওষুধ যেমন প্যারাসিটামল জ্বরের জন্য, এন্টাসিড পেটের সমস্যার জন্য। কিন্তু ডাক্তারের পরামর্শ ছাড়া ওষুধ খাবেন না। ফার্মেসিতে গিয়ে ফার্মাসিস্টের সাথে কথা বলুন।"
  const DefaultAnswer: string := "আমি আপনাকে কিভাবে সাহায্য করতে পারি? বিস্তারিত বলুন।"

  /** The `switch` of `handleQuickQuestion`. */
  function QuickAnswer(responseType: string): (r: string)
    ensures r == DefaultAnswer <==> responseType !in {"fever", "hospital", "sadness", "medicine"}
  {
    match responseType
    case "fever" => FeverAnswer
    case "hospital" => HospitalAnswer
    case "sadness" => SadnessAnswer
    case "medicine" => MedicineAnswer
    case _ => DefaultAnswer
  }

  /** The welcome shown after mounting and the one shown after clearing. */
  const Welcome: string := "আসসালামু আলাইকুম! আমি স্নেহ, আপনার স্বাস্থ্য সঙ্গী। বলুন, কিভাবে সাহায্য করতে পারি?"
  const RestartWelcome: string := "আসসালামু আলাইকুম! আবার শুরু করছি। বলুন, কিভাবে সাহায্য করতে পারি?"

  /** The note logged when listening starts, and the reply when speech
      could not be recognised. */
  const ListeningNote: string := "শুনছি... বলুন কথা"
  const NotHeard: string := "দুঃখিত, আপনার কথা ভালোভাবে শুনতে পাই নাই। আবার চেষ্টা করবেন?"

  /** A message of the conversation; `timestamp` is the instant it was added. */
  datatype Message = Message(sender: string, message: string, timestamp: int)

  /** The assistant's conversation state. */
  class Assistant {
    var conversation: seq<Message>
    var isListening: bool
    var isThinking: bool
    var isSpeaking: bool
    /** Whether the browser offers speech synthesis. */
    const synthesis: bool

    constructor (synthesis: bool)
      ensures conversation == [] && !isListening && !isThinking && !isSpeaking && this.synthesis == synthesis
    {
      conversation := [];
      isListening := false;
      isThinking := false;
      isSpeaking := false;
      this.synthesis := synthesis;
    }

    /** `addToConversation`: exactly one message is appended and the earlier
        ones stay; the result says whether the message is to be spoken. */
    method AddToConversation(sender: string, message: string, shouldSpeak: bool, now: int) returns (speak: bool)
      modifies this`conversation
      ensures conversation == old(conversation) + [Message(sender, message, now)]
      ensures speak <==> shouldSpeak && sender == "assistant"
    {
      conversation := conversation + [Message(sender, message, now)];
      speak := shouldSpeak && sender == "assistant";
    }

    /** The welcome the mount effect adds. */
    method WelcomeOnMount(now: int)
      modifies this`conversation
      ensures conversation == old(conversation) + [Message("assistant", Welcome, now)]
    {
      var _ := AddToConversation("assistant", Welcome, true, now);
    }

    /** The recognizer's start handler: listening, with a note in the log. */
    method OnRecognitionStart(now: int)
      modifies this`conversation, this`isListening
      ensures isListening
      ensures conversation == old(conversation) + [Message("user", ListeningNote, now)]
    {
      isListening := true;
      var _ := AddToConversation("user", ListeningNote, false, now);
    }

    /** The recognizer's error handler: listening stops and the assistant
        asks the user to repeat. */
    method OnRecognitionError(now: int)
      modifies this`conversation, this`isListening
      ensures !isListening
      ensures conversation == old(conversation) + [Message("assistant", NotHeard, now)]
    {
      isListening := false;
      var _ := AddToConversation("assistant", NotHeard, true, now);
    }

    /** The recognizer's end handler and `stopListening`. */
    method StopListening()
      modifies this`isListening
      ensures !isListening
    {
      isListening := false;
    }

    /** `processUserSpeech` with the simulated delay collapsed: the user's
        words, then the assistant's reply, are appended, and thinking is
        over. */
    method ProcessUserSpeech(transcript: string, now: int, pick: nat)
      requires pick < 3
      modifies this`conversation, this`isThinking
      ensures conversation == old(conversation)
        + [Message("user", transcript, now), Message("assistant", Respond(transcript, pick), now)]
      ensures !isThinking
    {
      var _ := AddToConversation("user", transcript, false, now);
      isThinking := true;
      var response := Respond(transcript, pick);
      var _ := AddToConversation("assistant", response, true, now);
      isThinking := false;
    }

    /** `handleQuickQuestion` with the delay collapsed: the question, then
        its fixed answer, are appended. */
    method HandleQuickQuestion(question: string, responseType: string, now: int)
      modifies this`conversation, this`isThinking
      ensures conversation == old(conversation)
        + [Message("user", question, now), Message("assistant", QuickAnswer(responseType), now)]
      ensures !isThinking
    {
      var _ := AddToConversation("user", question, false, now);
      isThinking := true;
      var _ := AddToConversation("assistant", QuickAnswer(responseType), true, now);
      isThinking := false;
    }

    /** `clearConversation`: speech stops and the log restarts with the
        single restart welcome. */
    method ClearConversation(now: int)
      modifies this`conversation, this`isSpeaking
      ensures conversation == [Message("assistant", RestartWelcome, now)]
      ensures synthesis ==> !isSpeaking
      ensures !synthesis ==> isSpeaking == old(isSpeaking)
    {
      if synthesis {
        isSpeaking := false;
      }
      conversation := [];
      var _ := AddToConversation("assistant", RestartWelcome, true, now);
    }
  }
}
