/**
 * The scripted career assistant (src/pages/ChatbotPage.tsx,
 * `generateMockBotResponse`): the message is lower-cased and run through an
 * ordered chain of keyword tests; the first test that holds picks the reply,
 * and a fixed text answers when none does. The chain is modelled as a rule
 * table read in order.
 */
module Chatbot {
  import opened Options
  import opened Text
  import opened MockDatabase

  /**
   * A keyword test in conjunctive form: it holds when every group has at
   * least one of its words in the text. `a || b` is one group `[a, b]`;
   * `a && (b || c)` is the two groups `[a]` and `[b, c]`.
   */
  datatype Test = Test(groups: seq<seq<string>>)

  /** The subject of a fixed reply. */
  datatype Topic =
    | Greeting
    | SkillImprovement
    | Resume
    | Interview
    | Salary
    | ProjectManagement
    | Networking
    | CoverLetter
    | Freelancing
    | Leadership
    | TechTrends
    | CloudComputing
    | InterviewPreparation
    | PythonCareers
    | AdvanceCareer
    | WorkingFromHome
    | Burnout
    | Certifications
    | MachineLearning
    | LinkedIn
    | ProgrammingLanguages
    | TechnicalTransition
    | TechPortfolio
    | TechNetworking
    | RemoteJobs
    | CareerGap

  /** A rule's reply: a fixed text, or the skill-based job suggestions. */
  datatype Answer = Say(topic: Topic) | RecommendRoles

  datatype Rule = Rule(test: Test, answer: Answer)

  /** Some word of the group occurs in the text. */
  predicate GroupHolds(group: seq<string>, text: string)
    decreases |group|
  {
    |group| > 0 && (Contains(text, group[0]) || GroupHolds(group[1..], text))
  }

  /** Every group of the list holds. */
  predicate AllGroupsHold(groups: seq<seq<string>>, text: string)
    decreases |groups|
  {
    |groups| == 0 || (GroupHolds(groups[0], text) && AllGroupsHold(groups[1..], text))
  }

  predicate Holds(test: Test, text: string) {
    AllGroupsHold(test.groups, text)
  }

  /** A group holds exactly when one of its words occurs in the text. */
  lemma {:induction false} GroupHoldsIff(group: seq<string>, text: string)
    ensures GroupHolds(group, text) <==> exists j :: 0 <= j < |group| && Contains(text, group[j])
    decreases |group|
  {
    if |group| > 0 {
      GroupHoldsIff(group[1..], text);
      if GroupHolds(group[1..], text) {
        var j :| 0 <= j < |group[1..]| && Contains(text, group[1..][j]);
        assert Contains(text, group[j + 1]);
      }
      if exists j :: 0 <= j < |group| && Contains(text, group[j]) {
        var j :| 0 <= j < |group| && Contains(text, group[j]);
        if j > 0 {
          assert group[1..][j - 1] == group[j];
        }
      }
    }
  }

  /** A list of groups holds exactly when each of its groups does. */
  lemma {:induction false} AllGroupsHoldIff(groups: seq<seq<string>>, text: string)
    ensures AllGroupsHold(groups, text) <==> forall i :: 0 <= i < |groups| ==> GroupHolds(groups[i], text)
    decreases |groups|
  {
    if |groups| > 0 {
      AllGroupsHoldIff(groups[1..], text);
      assert forall i :: 1 <= i < |groups| ==> groups[i] == groups[1..][i - 1];
    }
  }

  // ---------------------------------------------------------------------------
  // The rule table

  /** The rules in the order of the if-chain. */
  const Rules: seq<Rule> := [
    Rule(Test([["hello", "hi "]]), Say(Greeting)),
    Rule(Test([["skill"], ["improve"]]), Say(SkillImprovement)),
    Rule(Test([["resume", "cv"]]), Say(Resume)),
    Rule(Test([["interview"]]), Say(Interview)),
    Rule(Test([["recommend"], ["job", "career"]]), RecommendRoles),
    Rule(Test([["salary", "pay", "compensation"]]), Say(Salary)),
    Rule(Test([["project management", "agile"]]), Say(ProjectManagement)),
    Rule(Test([["networking", "connections"]]), Say(Networking)),
    Rule(Test([["cover letter"]]), Say(CoverLetter)),
    Rule(Test([["freelancing", "contract work"]]), Say(Freelancing)),
    Rule(Test([["leadership", "manager"]]), Say(Leadership)),
    Rule(Test([["tech trends", "emerging technologies"]]), Say(TechTrends)),
    Rule(Test([["cloud computing", "aws", "azure"]]), Say(CloudComputing)),
    Rule(Test([["interview"]]), Say(InterviewPreparation)),
    Rule(Test([["python"]]), Say(PythonCareers)),
    Rule(Test([["advance career"]]), Say(AdvanceCareer)),
    Rule(Test([["working from home"]]), Say(WorkingFromHome)),
    Rule(Test([["burnout"]]), Say(Burnout)),
    Rule(Test([["certification"]]), Say(Certifications)),
    Rule(Test([["machine learning"]]), Say(MachineLearning)),
    Rule(Test([["linkedin"]]), Say(LinkedIn)),
    Rule(Test([["programming languages"]]), Say(ProgrammingLanguages)),
    Rule(Test([["transition to technical"]]), Say(TechnicalTransition)),
    Rule(Test([["tech portfolio"]]), Say(TechPortfolio)),
    Rule(Test([["networking"]]), Say(TechNetworking)),
    Rule(Test([["remote jobs"]]), Say(RemoteJobs)),
    Rule(Test([["career gap"]]), Say(CareerGap))
  ]

  const RuleCount := |Rules|

  /** The fixed replies. */
  function TopicText(topic: Topic): string {
    match topic
    case Greeting => GreetingReply
    case SkillImprovement => SkillImprovementReply
    case Resume => ResumeReply
    case Interview => InterviewReply
    case Salary => SalaryReply
    case ProjectManagement => ProjectManagementReply
    case Networking => NetworkingReply
    case CoverLetter => CoverLetterReply
    case Freelancing => FreelancingReply
    case Leadership => LeadershipReply
    case TechTrends => TechTrendsReply
    case CloudComputing => CloudComputingReply
    case InterviewPreparation => InterviewPreparationReply
    case PythonCareers => PythonCareersReply
    case AdvanceCareer => AdvanceCareerReply
    case WorkingFromHome => WorkingFromHomeReply
    case Burnout => BurnoutReply
    case Certifications => CertificationsReply
    case MachineLearning => MachineLearningReply
    case LinkedIn => LinkedInReply
    case ProgrammingLanguages => ProgrammingLanguagesReply
    case TechnicalTransition => TechnicalTransitionReply
    case TechPortfolio => TechPortfolioReply
    case TechNetworking => TechNetworkingReply
    case RemoteJobs => RemoteJobsReply
    case CareerGap => CareerGapReply
  }

  const GreetingReply :=
    "Hello! How can I assist you today?"

  const SkillImprovementReply :=
    "To improve your skills, I recommend:\n\n1. Take online courses on platforms like Coursera, Udemy, or LinkedIn Learning\n2. Work on personal projects to apply what you've learned\n3. Contribute to open-source projects\n4. Join professional communities and attend events\n5. Find a mentor in your field"

  const ResumeReply :=
    "For a strong resume, make sure to:\n\n• Tailor it to each job application\n• Use quantifiable achievements rather than just listing responsibilities\n• Include relevant keywords from the job description\n• Keep it concise (1-2 pages)\n• Proofread carefully for any errors\n\nWould you like me to review your resume? You can describe its current sections."

  const InterviewReply :=
    "To prepare for job interviews:\n\n1. Research the company thoroughly\n2. Practice common questions for your role\n3. Prepare concrete examples using the STAR method (Situation, Task, Action, Result)\n4. Prepare thoughtful questions to ask the interviewer\n5. Do a mock interview with a friend\n\nWhich specific aspect of interview preparation would you like help with?"

  const SalaryReply :=
    "Salary ranges vary by location, experience level, and company size. For the most accurate data, I recommend checking sites like Glassdoor, PayScale, or levels.fyi.\n\nTo negotiate effectively:\n• Research the market rate for your role and location\n• Highlight your unique value and achievements\n• Consider the total compensation package (benefits, bonuses, etc.)\n• Practice your negotiation conversation"

  const ProjectManagementReply :=
    "For effective project management:\n\n1. Understand Agile methodologies like Scrum or Kanban\n2. Communicate clearly with your team\n3. Use tools like Trello, Jira, or Asana for task tracking\n4. Be adaptable to changes in project scope or deadlines"

  const NetworkingReply :=
    "Networking is key to your career growth:\n\n1. Attend industry events and conferences\n2. Join relevant LinkedIn groups and online communities\n3. Follow up after meetings with personalized messages\n4. Offer help or advice to others in your network"

  const CoverLetterReply :=
    "For a standout cover letter, remember to:\n\n• Tailor it to the job description\n• Show enthusiasm for the role and company\n• Mention key accomplishments that align with the job requirements\n• Keep it concise and error-free"

  const FreelancingReply :=
    "Freelancing can be a rewarding career choice. To succeed:\n\n1. Build a strong online portfolio\n2. Network to find potential clients\n3. Set clear rates and contract terms\n4. Deliver quality work on time to build your reputation"

  const LeadershipReply :=
    "Effective leadership is essential for success:\n\n1. Be a role model — lead by example\n2. Communicate clearly and regularly with your team\n3. Provide constructive feedback\n4. Foster a culture of collaboration and innovation"

  const TechTrendsReply :=
    "Some of the biggest tech trends to follow right now include:\n\n1. Artificial Intelligence and Machine Learning\n2. Cloud Computing and DevOps\n3. Cybersecurity advancements\n4. Blockchain and decentralized applications\n5. Augmented Reality (AR) and Virtual Reality (VR)"

  const CloudComputingReply :=
    "Cloud computing is transforming the tech industry:\n\n1. Learn about services like AWS, Azure, and Google Cloud\n2. Get certified to boost your career prospects\n3. Experiment with hosting your own apps or websites in the cloud"

  const InterviewPreparationReply :=
    "To prepare for job interviews:\n\n1. Research the company thoroughly — know their mission, values, and recent developments\n2. Practice common interview questions and prepare concrete examples using the STAR method (Situation, Task, Action, Result)\n3. Highlight your accomplishments and skills that directly align with the job description\n4. Prepare thoughtful questions to ask the interviewer to show your interest\n5. Do mock interviews with a friend or mentor to practice your delivery and confidence"

  const PythonCareersReply :=
    "Career options for someone with Python skills:\n\n1. Data Scientist — Work with data to extract meaningful insights\n2. Machine Learning Engineer — Build models and algorithms to make systems smarter\n3. Backend Developer — Develop the server-side of web applications\n4. Web Developer — Use frameworks like Django and Flask for building web apps\n5. Automation Engineer — Automate repetitive tasks and processes\n6. DevOps Engineer — Work on CI/CD pipelines and infrastructure automation"

  const AdvanceCareerReply :=
    "Skills to learn to advance your career:\n\n1. Learn a second programming language (e.g., JavaScript, Java, Go)\n2. Master version control (Git) for collaboration\n3. Gain expertise in cloud platforms like AWS, Azure, or GCP\n4. Learn frameworks and libraries relevant to your domain (e.g., Django, React)\n5. Improve problem-solving and algorithmic skills\n6. Understand system design and architecture principles"

  const WorkingFromHomeReply :=
    "Tips for working from home:\n\n1. Set a dedicated workspace to minimize distractions\n2. Stick to a routine and manage your time effectively\n3. Use tools like Slack, Zoom, and Asana for communication and collaboration\n4. Take regular breaks to avoid burnout\n5. Stay connected with your team and maintain clear communication\n6. Set boundaries between work and personal time"

  const BurnoutReply :=
    "Strategies to avoid burnout:\n\n1. Prioritize self-care with regular exercise and healthy eating\n2. Take breaks throughout the day to recharge\n3. Set clear work-life boundaries to prevent overworking\n4. Break tasks into manageable chunks to avoid feeling overwhelmed\n5. Seek support from colleagues, mentors, or a therapist if needed\n6. Learn to say 'no' and delegate tasks when necessary"

  const CertificationsReply :=
    "Tech certifications that can advance your career:\n\n1. AWS Certified Solutions Architect — Cloud computing expertise\n2. Google Professional Machine Learning Engineer — For machine learning professionals\n3. Microsoft Certified: Azure Fundamentals — Cloud computing and Microsoft Azure\n4. CompTIA Security+ — Cybersecurity fundamentals\n5. Certified Kubernetes Administrator — For DevOps and containerization\n6. Cisco Certified Network Associate (CCNA) — Networking expertise"

  const MachineLearningReply :=
    "Industries looking for machine learning engineers:\n\n1. Technology — Developing intelligent software and services\n2. Healthcare — Medical imaging, predictive analytics, and diagnostics\n3. Finance — Fraud detection, algorithmic trading, and risk assessment\n4. E-commerce — Recommendation engines and personalization\n5. Automotive — Autonomous vehicles and smart transportation systems\n6. Telecommunications — Network optimization and customer support automation"

  const LinkedInReply :=
    "Tips for improving your LinkedIn profile:\n\n1. Have a professional and clear profile picture\n2. Write a strong headline that highlights your expertise and value\n3. Craft a compelling summary with your skills, experience, and career goals\n4. List your key achievements and quantify them where possible\n5. Collect recommendations from colleagues and mentors\n6. Engage with content relevant to your industry to build your network"

  const ProgrammingLanguagesReply :=
    "Programming languages in high demand:\n\n1. Python — For data science, machine learning, and web development\n2. JavaScript — For frontend and backend web development\n3. Java — For enterprise applications and Android development\n4. Go — For high-performance backend systems\n5. TypeScript — For scalable web applications\n6. Rust — For systems programming and performance-critical applications"

  const TechnicalTransitionReply :=
    "To transition from a non-technical role to a technical role:\n\n1. Start by learning programming basics (e.g., Python, JavaScript)\n2. Take online courses or bootcamps to build foundational knowledge\n3. Work on personal projects to gain hands-on experience\n4. Participate in coding challenges and hackathons to build a portfolio\n5. Network with professionals in the field and seek mentorship\n6. Apply for junior or entry-level positions to gain industry experience"

  const TechPortfolioReply :=
    "To impress employers with your tech portfolio:\n\n1. Include a variety of projects showcasing your skills\n2. Provide clear documentation for each project (e.g., README files)\n3. Demonstrate problem-solving abilities and your approach to challenges\n4. Include links to your GitHub or any other code repositories\n5. Show your knowledge of version control (e.g., Git)\n6. Make your portfolio easy to navigate and professional"

  const TechNetworkingReply :=
    "Best ways to network in the tech industry:\n\n1. Attend industry conferences, meetups, and webinars\n2. Participate in online communities like GitHub, Stack Overflow, or Reddit\n3. Connect with professionals on LinkedIn and engage with their content\n4. Join specialized forums and groups related to your area of interest\n5. Collaborate on open-source projects to build relationships\n6. Reach out for informational interviews to learn about others' careers"

  const RemoteJobsReply :=
    "Best way to apply for remote tech jobs:\n\n1. Use job boards that specialize in remote work (e.g., We Work Remotely, Remote OK)\n2. Tailor your resume and cover letter to emphasize your remote work experience\n3. Highlight your communication and time management skills\n4. Demonstrate your ability to work independently and manage projects\n5. Network with people in remote-first companies to get referrals\n6. Prepare for remote interview settings (e.g., video calls, virtual collaboration tools)"

  const CareerGapReply :=
    "Tips for explaining a career gap in interviews:\n\n1. Be honest about the reason for the gap and emphasize what you learned during the time\n2. If you were upskilling, mention any courses or certifications you completed\n3. Highlight any freelance or volunteer work that’s relevant to the job\n4. Show how you’ve stayed up-to-date with industry trends during the gap\n5. Focus on your excitement to get back into the workforce and how you’re ready to contribute"

  const Fallback := "I'm here to help with your job search and career questions. You can ask me about:\n• Job recommendations based on your skills\n• Resume and cover letter tips\n• Interview preparation\n• Skill development advice\n• Salary negotiation\n\nWhat would you like to know more about?"

  const NoSkillsReply := "I can provide better job recommendations if you update your skills profile. What technologies or skills are you proficient in?"

  // ---------------------------------------------------------------------------
  // First match

  /** The index of the first rule from `k` on whose test holds, if any. */
  function FirstMatchFrom(rules: seq<Rule>, text: string, k: nat): (r: Option<nat>)
    requires k <= |rules|
    ensures r.Some? ==> && k <= r.value < |rules|
                        && Holds(rules[r.value].test, text)
                        && forall j :: k <= j < r.value ==> !Holds(rules[j].test, text)
    ensures r.None? ==> forall j :: k <= j < |rules| ==> !Holds(rules[j].test, text)
    decreases |rules| - k
  {
    if k == |rules| then None
    else if Holds(rules[k].test, text) then Some(k)
    else FirstMatchFrom(rules, text, k + 1)
  }

  /** First match wins: the rule chosen holds and no earlier rule does. */
  function FirstMatch(rules: seq<Rule>, text: string): (r: Option<nat>)
    ensures r.Some? ==> && r.value < |rules|
                        && Holds(rules[r.value].test, text)
                        && forall j :: 0 <= j < r.value ==> !Holds(rules[j].test, text)
    ensures r.None? <==> forall j :: 0 <= j < |rules| ==> !Holds(rules[j].test, text)
  {
    FirstMatchFrom(rules, text, 0)
  }

  /** A rule that holds after none of the earlier ones did is the first match. */
  lemma FirstMatchUnique(rules: seq<Rule>, text: string, k: nat)
    requires k < |rules| && Holds(rules[k].test, text)
    requires forall j :: 0 <= j < k ==> !Holds(rules[j].test, text)
    ensures FirstMatch(rules, text) == Some(k)
  {
  }

  // ---------------------------------------------------------------------------
  // The job-suggestion reply

  const FrontendLine := "• Frontend Developer\n"
  const BackendLine := "• Backend Developer\n"
  const FullStackLine := "• Full Stack Developer\n"
  const DataLines := "• Data Scientist\n• Machine Learning Engineer\n"
  const CloudLines := "• Cloud Engineer\n• DevOps Engineer\n"

  predicate FrontendSkills(skills: seq<string>) {
    "JavaScript" in skills || "React" in skills
  }

  predicate BackendSkills(skills: seq<string>) {
    "Node.js" in skills || "SQL" in skills
  }

  predicate DataSkills(skills: seq<string>) {
    "Python" in skills || "Machine Learning" in skills || "Data Science" in skills
  }

  predicate CloudSkills(skills: seq<string>) {
    "AWS" in skills || "Azure" in skills || "GCP" in skills
  }

  /** The suggestion lines, in the order they are printed. */
  function RoleLines(skills: seq<string>): (lines: seq<string>)
    ensures FrontendLine in lines <==> FrontendSkills(skills)
    ensures BackendLine in lines <==> BackendSkills(skills)
    ensures FullStackLine in lines <==> FrontendSkills(skills) && BackendSkills(skills)
    ensures DataLines in lines <==> DataSkills(skills)
    ensures CloudLines in lines <==> CloudSkills(skills)
  {
    (if FrontendSkills(skills) then [FrontendLine] else [])
    + (if BackendSkills(skills) then [BackendLine] else [])
    + (if FrontendSkills(skills) && BackendSkills(skills) then [FullStackLine] else [])
    + (if DataSkills(skills) then [DataLines] else [])
    + (if CloudSkills(skills) then [CloudLines] else [])
  }

  /** The Full Stack suggestion appears exactly when both the Frontend and the Backend ones do. */
  lemma FullStackIffFrontendAndBackend(skills: seq<string>)
    ensures FullStackLine in RoleLines(skills) <==> FrontendLine in RoleLines(skills) && BackendLine in RoleLines(skills)
  {
  }

  const SkillsOpening := "Based on your skills ("
  const RolesIntro := "), you might consider roles like:\n\n"

  /**
   * The suggestion text for a non-empty skill list: the opening words and
   * the comma-joined skills, then the suggested roles; it mentions every
   * skill and every suggestion line.
   */
  function SuggestionText(skills: seq<string>): (r: string)
    ensures StartsWith(r, SkillsOpening + Join(skills, ", "))
    ensures forall i :: 0 <= i < |skills| ==> Contains(r, skills[i])
    ensures forall i :: 0 <= i < |RoleLines(skills)| ==> Contains(r, RoleLines(skills)[i])
  {
    TemplateContents(SkillsOpening, skills, RolesIntro, RoleLines(skills));
    SkillsOpening + Join(skills, ", ") + RolesIntro + Join(RoleLines(skills), "")
  }

  /** The reply of the suggestion rule for the signed-in user, or for nobody. */
  function RecommendReply(user: Option<User>): (reply: string)
    ensures user.None? || |user.value.skills| == 0 ==> reply == NoSkillsReply
    ensures user.Some? && |user.value.skills| > 0 ==> reply == SuggestionText(user.value.skills)
  {
    if user.Some? && |user.value.skills| > 0 then SuggestionText(user.value.skills) else NoSkillsReply
  }

  // ---------------------------------------------------------------------------
  // The responder

  function AnswerText(answer: Answer, user: Option<User>): string {
    match answer
    case Say(topic) => TopicText(topic)
    case RecommendRoles => RecommendReply(user)
  }

  /**
   * The reply a rule table gives: the answer of the first rule whose test
   * holds on the lower-cased message, or the fallback when none does.
   */
  function Respond(rules: seq<Rule>, userText: string, user: Option<User>): (reply: string)
    ensures (forall k :: 0 <= k < |rules| ==> !Holds(rules[k].test, Lower(userText))) ==> reply == Fallback
    ensures forall k :: 0 <= k < |rules| && Holds(rules[k].test, Lower(userText))
                        && (forall j :: 0 <= j < k ==> !Holds(rules[j].test, Lower(userText)))
                        ==> reply == AnswerText(rules[k].answer, user)
  {
    var text := Lower(userText);
    assert forall k :: 0 <= k < |rules| && Holds(rules[k].test, text)
                       && (forall j :: 0 <= j < k ==> !Holds(rules[j].test, text))
                       ==> FirstMatch(rules, text) == Some(k) by {
      forall k | 0 <= k < |rules| && Holds(rules[k].test, text)
                 && (forall j :: 0 <= j < k ==> !Holds(rules[j].test, text))
        ensures FirstMatch(rules, text) == Some(k)
      {
        FirstMatchUnique(rules, text, k);
      }
    }
    match FirstMatch(rules, text)
    case None => Fallback
    case Some(k) => AnswerText(rules[k].answer, user)
  }

  /**
   * `generateMockBotResponse` without its artificial delay, over the
   * assistant's own rule table. The signed-in user, whose skills the
   * suggestion rule reads, is a parameter.
   */
  function GenerateMockBotResponse(userText: string, user: Option<User>): string {
    Respond(Rules, userText, user)
  }

  // ---------------------------------------------------------------------------
  // Properties of the chain

  /** All tests read the lower-cased message, so the case of the input does not matter. */
  lemma CaseInsensitive(userText: string, user: Option<User>)
    ensures GenerateMockBotResponse(Lower(userText), user) == GenerateMockBotResponse(userText, user)
  {
    LowerIdempotent(userText);
  }

  /** The first five rules of the table. */
  lemma LeadingRules()
    ensures Rules[0].test == Test([["hello", "hi "]])
    ensures Rules[1].test == Test([["skill"], ["improve"]])
    ensures Rules[2].test == Test([["resume", "cv"]])
    ensures Rules[3].test == Test([["interview"]])
    ensures Rules[4] == Rule(Test([["recommend"], ["job", "career"]]), RecommendRoles)
  {
  }

  /** A message containing "hello" or "hi " is greeted, whatever else it contains. */
  lemma GreetingWins(userText: string, user: Option<User>)
    requires Contains(Lower(userText), "hello") || Contains(Lower(userText), "hi ")
    ensures GenerateMockBotResponse(userText, user) == TopicText(Greeting)
  {
    var text := Lower(userText);
    assert Holds(Rules[0].test, text);
  }

  /**
   * The suggestion rule answers exactly when the message mentions
   * "recommend" together with "job" or "career", and none of the four
   * earlier rules holds.
   */
  lemma RecommendBranch(userText: string, user: Option<User>)
    ensures var t := Lower(userText);
            FirstMatch(Rules, t) == Some(4)
            <==> && Contains(t, "recommend") && (Contains(t, "job") || Contains(t, "career"))
                 && !(Contains(t, "hello") || Contains(t, "hi "))
                 && !(Contains(t, "skill") && Contains(t, "improve"))
                 && !(Contains(t, "resume") || Contains(t, "cv"))
                 && !Contains(t, "interview")
    ensures FirstMatch(Rules, Lower(userText)) == Some(4) ==> GenerateMockBotResponse(userText, user) == RecommendReply(user)
  {
    var t := Lower(userText);
    LeadingRules();
    assert Holds(Rules[0].test, t) <==> Contains(t, "hello") || Contains(t, "hi ");
    assert Holds(Rules[1].test, t) <==> Contains(t, "skill") && Contains(t, "improve");
    assert Holds(Rules[2].test, t) <==> Contains(t, "resume") || Contains(t, "cv");
    assert Holds(Rules[3].test, t) <==> Contains(t, "interview");
    assert Holds(Rules[4].test, t) <==> Contains(t, "recommend") && (Contains(t, "job") || Contains(t, "career"));
  }

  /**
   * A later test that is at least as demanding as an earlier one: each group
   * of the earlier test includes all the words of some group of the later.
   */
  predicate Subsumes(earlier: Test, later: Test) {
    forall i :: 0 <= i < |earlier.groups| ==>
      exists h :: 0 <= h < |later.groups| && forall w :: w in later.groups[h] ==> w in earlier.groups[i]
  }

  lemma SubsumedHolds(earlier: Test, later: Test, text: string)
    requires Subsumes(earlier, later) && Holds(later, text)
    ensures Holds(earlier, text)
  {
    AllGroupsHoldIff(later.groups, text);
    AllGroupsHoldIff(earlier.groups, text);
    forall i | 0 <= i < |earlier.groups| ensures GroupHolds(earlier.groups[i], text) {
      var h :| 0 <= h < |later.groups| && forall w :: w in later.groups[h] ==> w in earlier.groups[i];
      GroupHoldsIff(later.groups[h], text);
      GroupHoldsIff(earlier.groups[i], text);
      var j :| 0 <= j < |later.groups[h]| && Contains(text, later.groups[h][j]);
      var w := later.groups[h][j];
      assert w in earlier.groups[i];
      var m :| 0 <= m < |earlier.groups[i]| && earlier.groups[i][m] == w;
    }
  }

  /** A rule whose test is subsumed by an earlier rule's test never answers. */
  lemma SubsumedRuleUnreachable(rules: seq<Rule>, j: nat, k: nat, text: string)
    requires j < k < |rules| && Subsumes(rules[j].test, rules[k].test)
    ensures FirstMatch(rules, text) != Some(k)
  {
    if FirstMatch(rules, text) == Some(k) {
      SubsumedHolds(rules[j].test, rules[k].test, text);
    }
  }

  /** The second "interview" rule is dead: the first one has the same test. */
  lemma SecondInterviewRuleUnreachable(text: string)
    ensures FirstMatch(Rules, text) != Some(13)
  {
    assert Rules[13].test.groups[0] == ["interview"];
    SubsumedRuleUnreachable(Rules, 3, 13, text);
  }

  /** The second "networking" rule is dead: the first one tests "networking" or "connections". */
  lemma SecondNetworkingRuleUnreachable(text: string)
    ensures FirstMatch(Rules, text) != Some(24)
  {
    assert Rules[24].test.groups[0] == ["networking"];
    assert "networking" in Rules[7].test.groups[0];
    SubsumedRuleUnreachable(Rules, 7, 24, text);
  }
}
